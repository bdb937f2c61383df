/** Flattening a configuration tree to environment variables (letta/config_file.py:114-211).
    The parameter upper stands for str.upper; nothing is assumed of it. */
module ConfigFlatten {
  import opened Wrappers
  import opened ConfigTree

  /** The dict the source passes around and writes into. */
  class EnvVars {
    var vars: map<string, string>

    constructor ()
      ensures vars == map[]
    {
      vars := map[];
    }
  }

  // ------------------------------------------------------------------ what is set

  function EnvName(upper: string -> string, prefix: string, key: string): string {
    if prefix == "" then upper(key) else upper(prefix + "_" + key)
  }

  function PathName(upper: string -> string, prefix: string, p: Path): string
    decreases p
  {
    if p == [] then prefix else PathName(upper, EnvName(upper, prefix, p[0]), p[1..])
  }

  /** The text a leaf is exported as; null is not exported. */
  function ScalarText(v: Scalar): Option<string> {
    match v
    case Null => None
    case Bool(truth) => Some(if truth then "true" else "false")
    case Text(text) => Some(text)
  }

  function TextAt(t: Tree, p: Path): Option<string> {
    var leaf := LeafAt(t, p);
    if leaf.Some? then ScalarText(leaf.value) else None
  }

  type Settings = iset<(string, string)>

  ghost function TreeSettings(upper: string -> string, prefix: string, t: Tree): Settings {
    iset p: Path | TextAt(t, p).Some? :: (PathName(upper, prefix, p), TextAt(t, p).value)
  }

  /** Writing these settings in some order over these variables may give those. */
  ghost predicate Writes(s: Settings, before: map<string, string>, after: map<string, string>) {
    && (forall n, t :: (n, t) in s ==> n in after)
    && (forall n :: n in before ==> n in after)
    && (forall n :: n in after ==> (n, after[n]) in s || (n in before && after[n] == before[n] && forall t :: (n, t) !in s))
  }

  lemma WritesTwice(s: Settings, t: Settings, a: map<string, string>, b: map<string, string>, c: map<string, string>)
    requires Writes(s, a, b) && Writes(t, b, c)
    ensures Writes(s + t, a, c)
  {
  }

  // ----------------------------------------------------------- settings of a dict

  function Part(items: map<string, Tree>, keys: set<string>): Tree {
    Dict(map k | k in items && k in keys :: items[k])
  }

  lemma SettingsGrow(upper: string -> string, prefix: string, items: map<string, Tree>, keys: set<string>, key: string)
    requires key in items && key !in keys
    ensures TreeSettings(upper, prefix, Part(items, keys + {key}))
         == TreeSettings(upper, prefix, Part(items, keys)) + TreeSettings(upper, EnvName(upper, prefix, key), items[key])
  {
    var small, big, sub := Part(items, keys), Part(items, keys + {key}), items[key];
    var name := EnvName(upper, prefix, key);
    forall s | s in TreeSettings(upper, prefix, big)
      ensures s in TreeSettings(upper, prefix, small) + TreeSettings(upper, name, sub)
    {
      var p: Path :| TextAt(big, p).Some? && s == (PathName(upper, prefix, p), TextAt(big, p).value);
      if p[0] == key {
        assert TextAt(sub, p[1..]) == TextAt(big, p);
      } else {
        assert TextAt(small, p) == TextAt(big, p);
      }
    }
    forall s | s in TreeSettings(upper, prefix, small)
      ensures s in TreeSettings(upper, prefix, big)
    {
      var p: Path :| TextAt(small, p).Some? && s == (PathName(upper, prefix, p), TextAt(small, p).value);
      assert TextAt(small, p) == TextAt(big, p);
    }
    forall s | s in TreeSettings(upper, name, sub)
      ensures s in TreeSettings(upper, prefix, big)
    {
      var p: Path :| TextAt(sub, p).Some? && s == (PathName(upper, name, p), TextAt(sub, p).value);
      var q := [key] + p;
      assert q[1..] == p;
      assert TextAt(big, q) == TextAt(sub, p) && PathName(upper, prefix, q) == PathName(upper, name, p);
    }
  }

  lemma NoSettings(upper: string -> string, prefix: string, items: map<string, Tree>)
    ensures TreeSettings(upper, prefix, Part(items, {})) == iset{}
  {
    var t := Part(items, {});
    forall p: Path ensures TextAt(t, p) == None {
    }
  }

  lemma LeafSettings(upper: string -> string, name: string, v: Scalar)
    ensures TreeSettings(upper, name, Leaf(v)) == if ScalarText(v).Some? then iset{(name, ScalarText(v).value)} else iset{}
  {
    if ScalarText(v).Some? {
      assert TextAt(Leaf(v), []) == ScalarText(v) && PathName(upper, name, []) == name;
    }
  }

  // ------------------------------------------------------------- the four writers

  method WriteScalar(v: Scalar, name: string, env: EnvVars, ghost upper: string -> string)
    modifies env
    ensures Writes(TreeSettings(upper, name, Leaf(v)), old(env.vars), env.vars)
  {
    LeafSettings(upper, name, v);
    match v
    case Null =>
    case Bool(truth) => env.vars := env.vars[name := if truth then "true" else "false"];
    case Text(text) => env.vars := env.vars[name := text];
  }

  /** Dict items in any order. */
  method FlattenWithPrefix(upper: string -> string, d: map<string, Tree>, prefix: string, env: EnvVars)
    modifies env
    ensures Writes(TreeSettings(upper, prefix, Dict(d)), old(env.vars), env.vars)
    decreases Dict(d)
  {
    ghost var before := env.vars;
    var todo := d.Keys;
    NoSettings(upper, prefix, d);
    while todo != {}
      invariant todo <= d.Keys
      invariant Writes(TreeSettings(upper, prefix, Part(d, d.Keys - todo)), before, env.vars)
      decreases todo
    {
      ghost var mid, done := env.vars, d.Keys - todo;
      var key :| key in todo;
      var name := if prefix == "" then upper(key) else upper(prefix + "_" + key);
      var value := d[key];
      if value.Dict? {
        FlattenWithPrefix(upper, value.items, name, env);
      } else {
        WriteScalar(value.value, name, env, upper);
      }
      SettingsGrow(upper, prefix, d, done, key);
      WritesTwice(TreeSettings(upper, prefix, Part(d, done)), TreeSettings(upper, name, value), before, mid, env.vars);
      todo := todo - {key};
      assert d.Keys - todo == done + {key};
    }
    assert Part(d, d.Keys - todo).items == d;
  }

  /** Model settings and tool settings: the same loop, with the bare key for a prefix. */
  method FlattenSettings(upper: string -> string, d: map<string, Tree>, env: EnvVars)
    modifies env
    ensures Writes(TreeSettings(upper, "", Dict(d)), old(env.vars), env.vars)
  {
    ghost var before := env.vars;
    var todo := d.Keys;
    NoSettings(upper, "", d);
    while todo != {}
      invariant todo <= d.Keys
      invariant Writes(TreeSettings(upper, "", Part(d, d.Keys - todo)), before, env.vars)
      decreases todo
    {
      ghost var mid, done := env.vars, d.Keys - todo;
      var key :| key in todo;
      var value := d[key];
      if value.Dict? {
        FlattenWithPrefix(upper, value.items, upper(key), env);
      } else {
        WriteScalar(value.value, upper(key), env, upper);
      }
      SettingsGrow(upper, "", d, done, key);
      WritesTwice(TreeSettings(upper, "", Part(d, done)), TreeSettings(upper, upper(key), value), before, mid, env.vars);
      todo := todo - {key};
      assert d.Keys - todo == done + {key};
    }
    assert Part(d, d.Keys - todo).items == d;
  }

  // ----------------------------------------------------------- the whole config

  datatype ConfigError = SectionIsNoMapping

  function SectionPrefix(section: string): Option<string> {
    if section == "letta" then Some("LETTA")
    else if section == "model" || section == "tool" then Some("")
    else if section == "datadog" then Some("DD")
    else None
  }

  ghost predicate SectionsAreDicts(config: map<string, Tree>) {
    forall s :: s in config && SectionPrefix(s).Some? ==> config[s].Dict?
  }

  ghost function SectionSettings(upper: string -> string, config: map<string, Tree>, section: string): Settings
    requires SectionPrefix(section).Some?
  {
    if section in config then TreeSettings(upper, SectionPrefix(section).value, config[section]) else iset{}
  }

  ghost function ConfigSettings(upper: string -> string, config: map<string, Tree>): Settings {
    SectionSettings(upper, config, "letta") + SectionSettings(upper, config, "model")
    + SectionSettings(upper, config, "tool") + SectionSettings(upper, config, "datadog")
  }

  method ConfigToEnvVars(upper: string -> string, config: map<string, Tree>) returns (r: Result<map<string, string>, ConfigError>)
    ensures r.Err? <==> !SectionsAreDicts(config)
    ensures r.Ok? ==> Writes(ConfigSettings(upper, config), map[], r.value)
  {
    var env := new EnvVars();
    ghost var v0 := env.vars;
    if "letta" in config {
      if config["letta"].Leaf? { return Err(SectionIsNoMapping); }
      FlattenWithPrefix(upper, config["letta"].items, "LETTA", env);
    }
    ghost var v1 := env.vars;
    if "model" in config {
      if config["model"].Leaf? { return Err(SectionIsNoMapping); }
      FlattenSettings(upper, config["model"].items, env);
    }
    ghost var v2 := env.vars;
    if "tool" in config {
      if config["tool"].Leaf? { return Err(SectionIsNoMapping); }
      FlattenSettings(upper, config["tool"].items, env);
    }
    ghost var v3 := env.vars;
    if "datadog" in config {
      if config["datadog"].Leaf? { return Err(SectionIsNoMapping); }
      FlattenWithPrefix(upper, config["datadog"].items, "DD", env);
    }
    ghost var s1, s2, s3, s4 := SectionSettings(upper, config, "letta"), SectionSettings(upper, config, "model"),
      SectionSettings(upper, config, "tool"), SectionSettings(upper, config, "datadog");
    WritesTwice(s1, s2, v0, v1, v2);
    WritesTwice(s1 + s2, s3, v0, v2, v3);
    WritesTwice(s1 + s2 + s3, s4, v0, v3, env.vars);
    r := Ok(env.vars);
  }
}

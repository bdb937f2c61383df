/** Flattening against merging (letta/config_file.py:103-211). */
module ConfigLaws {
  import opened Wrappers
  import opened ConfigTree
  import opened ConfigFlatten

  function ConfigName(upper: string -> string, p: Path): string
    requires p != [] && SectionPrefix(p[0]).Some?
  {
    PathName(upper, SectionPrefix(p[0]).value, p[1..])
  }

  /** The text exported for a path of the whole configuration. */
  function ExportAt(config: Tree, p: Path): Option<string> {
    if p != [] && SectionPrefix(p[0]).Some? then TextAt(config, p) else None
  }

  lemma SettingsByPath(upper: string -> string, config: map<string, Tree>, name: string, text: string)
    ensures (name, text) in ConfigSettings(upper, config)
       <==> exists p: Path :: ExportAt(Dict(config), p) == Some(text) && ConfigName(upper, p) == name
  {
    if (name, text) in ConfigSettings(upper, config) {
      var section :| section in ["letta", "model", "tool", "datadog"] && (name, text) in SectionSettings(upper, config, section);
      var p: Path :| TextAt(config[section], p).Some? &&
        (name, text) == (PathName(upper, SectionPrefix(section).value, p), TextAt(config[section], p).value);
      var q := [section] + p;
      assert q[1..] == p;
      assert ExportAt(Dict(config), q) == Some(text) && ConfigName(upper, q) == name;
    }
    if p: Path :| ExportAt(Dict(config), p) == Some(text) && ConfigName(upper, p) == name {
      var sub := config[p[0]];
      assert TextAt(sub, p[1..]) == Some(text);
      assert (name, text) in SectionSettings(upper, config, p[0]);
    }
  }

  /** The override has something other than a setting where the path leads. */
  predicate Shadows(t: Tree, p: Path)
    decreases p
  {
    match t
    case Leaf(v) => p != [] || v == Null
    case Dict(items) => p == [] || (p[0] in items && Shadows(items[p[0]], p[1..]))
  }

  lemma {:induction false} TextOfMerge(a: Tree, b: Tree, p: Path)
    ensures TextAt(Merge(a, b), p)
         == if TextAt(b, p).Some? then TextAt(b, p) else if Shadows(b, p) then None else TextAt(a, p)
    decreases p
  {
    if a.Dict? && b.Dict? && p != [] && p[0] in a.items && p[0] in b.items {
      TextOfMerge(a.items[p[0]], b.items[p[0]], p[1..]);
    }
  }

  /** No two exported paths of the two configurations share a variable name. */
  ghost predicate NamesApart(upper: string -> string, a: Tree, b: Tree) {
    forall p: Path, q: Path ::
      ((ExportAt(a, p).Some? || ExportAt(b, p).Some?)
       && (ExportAt(a, q).Some? || ExportAt(b, q).Some?)
       && ConfigName(upper, p) == ConfigName(upper, q)) ==> p == q
  }

  /** The override puts a null, a mapping or a scalar above it where the base exports a value. */
  ghost predicate Erases(a: Tree, b: Tree) {
    exists p: Path :: ExportAt(a, p).Some? && Shadows(b, p)
  }

  /** These variables are what flattening this configuration gives. */
  ghost predicate IsFlat(upper: string -> string, config: map<string, Tree>, env: map<string, string>) {
    Writes(ConfigSettings(upper, config), map[], env)
  }

  lemma FlatHas(upper: string -> string, config: map<string, Tree>, env: map<string, string>, p: Path)
    requires IsFlat(upper, config, env) && ExportAt(Dict(config), p).Some?
    ensures ConfigName(upper, p) in env
  {
    var text := ExportAt(Dict(config), p).value;
    SettingsByPath(upper, config, ConfigName(upper, p), text);
  }

  lemma FlatFrom(upper: string -> string, config: map<string, Tree>, env: map<string, string>, name: string) returns (p: Path)
    requires IsFlat(upper, config, env) && name in env
    ensures ExportAt(Dict(config), p) == Some(env[name]) && ConfigName(upper, p) == name
  {
    SettingsByPath(upper, config, name, env[name]);
    p :| ExportAt(Dict(config), p) == Some(env[name]) && ConfigName(upper, p) == name;
  }

  lemma ExportOfMerge(a: map<string, Tree>, b: map<string, Tree>, m: map<string, Tree>, p: Path)
    requires Dict(m) == Merge(Dict(a), Dict(b))
    ensures ExportAt(Dict(m), p)
         == if ExportAt(Dict(b), p).Some? then ExportAt(Dict(b), p)
            else if Shadows(Dict(b), p) then None else ExportAt(Dict(a), p)
    ensures ExportAt(Dict(b), p).Some? ==> !Shadows(Dict(b), p)
  {
    TextOfMerge(Dict(a), Dict(b), p);
    SettingNotShadowed(Dict(b), p);
  }

  lemma {:induction false} SettingNotShadowed(t: Tree, p: Path)
    ensures TextAt(t, p).Some? ==> !Shadows(t, p)
    decreases p
  {
    if t.Dict? && p != [] && p[0] in t.items {
      SettingNotShadowed(t.items[p[0]], p[1..]);
    }
  }

  /** Whatever order the items are written in: with names apart, flattening the merge gives
      the override's variables over the base's exactly when nothing is erased. */
  lemma FlattenIsHomomorphismExactly(
      upper: string -> string, a: map<string, Tree>, b: map<string, Tree>, m: map<string, Tree>,
      envA: map<string, string>, envB: map<string, string>, envM: map<string, string>)
    requires Dict(m) == Merge(Dict(a), Dict(b))
    requires IsFlat(upper, a, envA) && IsFlat(upper, b, envB) && IsFlat(upper, m, envM)
    requires NamesApart(upper, Dict(a), Dict(b))
    ensures envM == envA + envB <==> !Erases(Dict(a), Dict(b))
  {
    if Erases(Dict(a), Dict(b)) {
      var p: Path :| ExportAt(Dict(a), p).Some? && Shadows(Dict(b), p);
      ErasedIsMissing(upper, a, b, m, envM, p);
      FlatHas(upper, a, envA, p);
    } else {
      forall n | n in envM ensures n in envA + envB && envM[n] == (envA + envB)[n] {
        MergedIsUnion(upper, a, b, m, envA, envB, envM, n);
      }
      forall n | n in envA + envB ensures n in envM {
        UnionIsMerged(upper, a, b, m, envA, envB, envM, n);
      }
    }
  }

  lemma ErasedIsMissing(upper: string -> string, a: map<string, Tree>, b: map<string, Tree>, m: map<string, Tree>,
                        envM: map<string, string>, p: Path)
    requires Dict(m) == Merge(Dict(a), Dict(b)) && IsFlat(upper, m, envM) && NamesApart(upper, Dict(a), Dict(b))
    requires ExportAt(Dict(a), p).Some? && Shadows(Dict(b), p)
    ensures ConfigName(upper, p) !in envM
  {
    ExportOfMerge(a, b, m, p);
    if ConfigName(upper, p) in envM {
      var q := FlatFrom(upper, m, envM, ConfigName(upper, p));
      ExportOfMerge(a, b, m, q);
    }
  }

  lemma MergedIsUnion(upper: string -> string, a: map<string, Tree>, b: map<string, Tree>, m: map<string, Tree>,
                      envA: map<string, string>, envB: map<string, string>, envM: map<string, string>, n: string)
    requires Dict(m) == Merge(Dict(a), Dict(b)) && NamesApart(upper, Dict(a), Dict(b))
    requires IsFlat(upper, a, envA) && IsFlat(upper, b, envB) && IsFlat(upper, m, envM)
    requires n in envM
    ensures n in envA + envB && envM[n] == (envA + envB)[n]
  {
    var p := FlatFrom(upper, m, envM, n);
    ExportOfMerge(a, b, m, p);
    if ExportAt(Dict(b), p).Some? { FlatHas(upper, b, envB, p); } else { FlatHas(upper, a, envA, p); }
    if n in envB {
      var q := FlatFrom(upper, b, envB, n);
      assert p == q;
    } else {
      var q := FlatFrom(upper, a, envA, n);
      assert p == q;
    }
  }

  lemma UnionIsMerged(upper: string -> string, a: map<string, Tree>, b: map<string, Tree>, m: map<string, Tree>,
                      envA: map<string, string>, envB: map<string, string>, envM: map<string, string>, n: string)
    requires Dict(m) == Merge(Dict(a), Dict(b)) && !Erases(Dict(a), Dict(b))
    requires IsFlat(upper, a, envA) && IsFlat(upper, b, envB) && IsFlat(upper, m, envM)
    requires n in envA + envB
    ensures n in envM
  {
    var p: Path;
    if n in envB { p := FlatFrom(upper, b, envB, n); } else { p := FlatFrom(upper, a, envA, n); }
    ExportOfMerge(a, b, m, p);
    FlatHas(upper, m, envM, p);
  }

  /** A null leaf somewhere. */
  ghost predicate HasNull(t: Tree) { exists p: Path :: LeafAt(t, p) == Some(Null) }

  lemma {:induction false} CompatibleShadowIsNull(a: Tree, b: Tree, p: Path)
    requires Compatible(a, b) && TextAt(a, p).Some? && Shadows(b, p)
    ensures LeafAt(b, p) == Some(Null)
    decreases p
  {
    if a.Dict? {
      CompatibleShadowIsNull(a.items[p[0]], b.items[p[0]], p[1..]);
    }
  }

  /** Compatible shapes and an override without nulls never erase. */
  lemma CompatibleNeverErases(a: Tree, b: Tree)
    requires Compatible(a, b) && !HasNull(b)
    ensures !Erases(a, b)
  {
    if Erases(a, b) {
      var p: Path :| ExportAt(a, p).Some? && Shadows(b, p);
      CompatibleShadowIsNull(a, b, p);
    }
  }

  // --------------------------------------------------------- variables, written out

  /** A leaf that is no null, in one of the four sections. */
  predicate IsSetting(config: map<string, Tree>, p: Path) {
    && p != [] && p[0] in ["letta", "model", "tool", "datadog"]
    && LeafAt(Dict(config), p).Some? && LeafAt(Dict(config), p) != Some(Null)
  }

  ghost predicate SettingsApart(upper: string -> string, config: map<string, Tree>) {
    forall p: Path, q: Path ::
      IsSetting(config, p) && IsSetting(config, q) && ConfigName(upper, p) == ConfigName(upper, q) ==> p == q
  }

  /** A boolean is exported as "true" or "false", any other leaf as its text, a null not at all; and
      nothing else is exported. */
  lemma ExportedByLeaf(upper: string -> string, config: map<string, Tree>, env: map<string, string>, p: Path)
    requires IsFlat(upper, config, env) && SettingsApart(upper, config)
    requires p != [] && p[0] in ["letta", "model", "tool", "datadog"]
    ensures var name := ConfigName(upper, p);
            match LeafAt(Dict(config), p)
            case Some(Bool(truth)) => name in env && env[name] == (if truth then "true" else "false")
            case Some(Text(text)) => name in env && env[name] == text
            case _ => name in env ==> exists q: Path :: q != p && IsSetting(config, q) && ConfigName(upper, q) == name
  {
    var name := ConfigName(upper, p);
    if IsSetting(config, p) { FlatHas(upper, config, env, p); }
    if name in env {
      var q := FlatFrom(upper, config, env, name);
      assert IsSetting(config, q);
    }
  }

  lemma ExportedFromLeaf(upper: string -> string, config: map<string, Tree>, env: map<string, string>, name: string) returns (p: Path)
    requires IsFlat(upper, config, env) && name in env
    ensures IsSetting(config, p) && ConfigName(upper, p) == name
    ensures match LeafAt(Dict(config), p)
            case Some(Bool(truth)) => env[name] == if truth then "true" else "false"
            case Some(Text(text)) => env[name] == text
            case _ => false
  {
    p := FlatFrom(upper, config, env, name);
  }

  /** The names: LETTA_ and DD_ before the keys of their sections, nothing before those of model and
      tool; every further key behind an underscore, and everything in capitals. */
  lemma NamesWritten(upper: string -> string, a: string, k: string)
    ensures ConfigName(upper, ["letta", a]) == upper("LETTA_" + a)
    ensures ConfigName(upper, ["datadog", a]) == upper("DD_" + a)
    ensures ConfigName(upper, ["model", a]) == upper(a) && ConfigName(upper, ["tool", a]) == upper(a)
    ensures upper(a) != "" ==>
      ConfigName(upper, ["model", a, k]) == upper(upper(a) + "_" + k) == ConfigName(upper, ["tool", a, k])
    ensures upper(a) == "" ==> ConfigName(upper, ["model", a, k]) == upper(k) == ConfigName(upper, ["tool", a, k])
    ensures upper("LETTA_" + a) != "" ==> ConfigName(upper, ["letta", a, k]) == upper(upper("LETTA_" + a) + "_" + k)
    ensures upper("DD_" + a) != "" ==> ConfigName(upper, ["datadog", a, k]) == upper(upper("DD_" + a) + "_" + k)
  {
    ShortNames(upper, "letta", a, k);
    ShortNames(upper, "datadog", a, k);
    ShortNames(upper, "model", a, k);
    ShortNames(upper, "tool", a, k);
    assert "LETTA" + "_" + a == "LETTA_" + a;
    assert "DD" + "_" + a == "DD_" + a;
  }

  lemma ShortNames(upper: string -> string, section: string, a: string, k: string)
    requires SectionPrefix(section).Some?
    ensures var prefix := SectionPrefix(section).value;
            && ConfigName(upper, [section, a]) == EnvName(upper, prefix, a)
            && ConfigName(upper, [section, a, k]) == EnvName(upper, EnvName(upper, prefix, a), k)
  {
    var prefix := SectionPrefix(section).value;
    assert [section, a][1..] == [a] && [section, a, k][1..] == [a, k];
    assert [a][1..] == [] && [a, k][1..] == [k] && [k][1..] == [];
    assert PathName(upper, prefix, [a]) == PathName(upper, EnvName(upper, prefix, a), []);
    assert PathName(upper, EnvName(upper, prefix, a), [k]) == EnvName(upper, EnvName(upper, prefix, a), k);
  }

  /** A longer path's name, from the name of the path in front of it. */
  lemma {:induction false} NameOfLongerPath(upper: string -> string, prefix: string, p: Path, k: string)
    ensures var name := PathName(upper, prefix, p);
            PathName(upper, prefix, p + [k]) == if name == "" then upper(k) else upper(name + "_" + k)
    decreases p
  {
    if p == [] {
      assert p + [k] == [k] && [k][1..] == [];
    } else {
      assert (p + [k])[1..] == p[1..] + [k];
      NameOfLongerPath(upper, EnvName(upper, prefix, p[0]), p[1..], k);
    }
  }

  const Mcp := map["disable_stdio" := Leaf(Bool(true))]
  const Tool := map["mcp" := Dict(Mcp)]
  const DisableStdio := map["tool" := Dict(Tool)]

  lemma OnlyItem(k: string, t: Tree, q: Path)
    requires LeafAt(Dict(map[k := t]), q).Some?
    ensures q != [] && q == [k] + q[1..] && LeafAt(t, q[1..]) == LeafAt(Dict(map[k := t]), q)
  {
    assert q == [q[0]] + q[1..];
  }

  lemma OneSetting(q: Path)
    requires LeafAt(Dict(DisableStdio), q).Some?
    ensures q == ["tool", "mcp", "disable_stdio"] && LeafAt(Dict(DisableStdio), q) == Some(Bool(true))
  {
    OnlyItem("tool", Dict(Tool), q);
    OnlyItem("mcp", Dict(Mcp), q[1..]);
    OnlyItem("disable_stdio", Leaf(Bool(true)), q[1..][1..]);
    assert q == ["tool"] + (["mcp"] + (["disable_stdio"] + []));
  }

  lemma IsThere()
    ensures LeafAt(Dict(DisableStdio), ["tool", "mcp", "disable_stdio"]) == Some(Bool(true))
  {
    var p := ["tool", "mcp", "disable_stdio"];
    assert p[1..] == ["mcp", "disable_stdio"] && p[1..][1..] == ["disable_stdio"] && p[1..][1..][1..] == [];
    assert LeafAt(Dict(Tool), p[1..]) == LeafAt(Dict(Mcp), p[1..][1..]);
  }

  lemma FlagName(upper: string -> string)
    requires upper("mcp") == "MCP"
    ensures ConfigName(upper, ["tool", "mcp", "disable_stdio"]) == upper("MCP_disable_stdio")
  {
    ShortNames(upper, "tool", "mcp", "disable_stdio");
    assert "MCP" + "_" + "disable_stdio" == "MCP_disable_stdio";
  }

  /** An enabled flag of a tool, as the source's own example has it. */
  lemma FlagExported(upper: string -> string, env: map<string, string>)
    requires IsFlat(upper, DisableStdio, env) && upper("mcp") == "MCP"
    ensures env == map[upper("MCP_disable_stdio") := "true"]
  {
    var p := ["tool", "mcp", "disable_stdio"];
    forall q: Path | IsSetting(DisableStdio, q) ensures q == p { OneSetting(q); }
    IsThere();
    FlagName(upper);
    ExportedByLeaf(upper, DisableStdio, env, p);
    forall n | n in env ensures n == ConfigName(upper, p) {
      var q := ExportedFromLeaf(upper, DisableStdio, env, n);
      assert q == p;
    }
  }
}

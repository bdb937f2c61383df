/** Configuration trees and their deep merge (letta/config_file.py:89-111). */
module ConfigTree {
  import opened Wrappers

  /** A YAML leaf: null, a boolean, or anything else by its str() text. */
  datatype Scalar = Null | Bool(truth: bool) | Text(text: string)

  datatype Tree = Leaf(value: Scalar) | Dict(items: map<string, Tree>)

  type Path = seq<string>

  const Empty := Dict(map[])

  // ------------------------------------------------------------------------ merge

  function Merge(base: Tree, override: Tree): Tree
    decreases override
  {
    if base.Dict? && override.Dict? then
      Dict(map k | k in base.items.Keys + override.items.Keys ::
        if k !in override.items then base.items[k]
        else if k !in base.items then override.items[k]
        else Merge(base.items[k], override.items[k]))
    else override
  }

  /** The source's loop over the override's items, in any order. */
  method DeepMerge(base: map<string, Tree>, override: map<string, Tree>) returns (result: map<string, Tree>)
    ensures Dict(result) == Merge(Dict(base), Dict(override))
    decreases Dict(override)
  {
    result := base;
    ghost var merged := Merge(Dict(base), Dict(override)).items;
    var todo := override.Keys;
    while todo != {}
      invariant todo <= override.Keys
      invariant result.Keys == base.Keys + (override.Keys - todo)
      invariant forall k :: k in result && k in override && k !in todo ==> result[k] == merged[k]
      invariant forall k :: k in result && (k in todo || k !in override) ==> k in base && result[k] == base[k]
      decreases todo
    {
      var key :| key in todo;
      var value := override[key];
      if key in result && result[key].Dict? && value.Dict? {
        var sub := DeepMerge(result[key].items, value.items);
        assert Dict(base[key].items) == base[key] && Dict(value.items) == value;
        assert merged[key] == Merge(base[key], value);
        result := result[key := Dict(sub)];
      } else {
        assert merged[key] == value by {
          if key in base { assert Merge(base[key], value) == value; }
        }
        result := result[key := value];
      }
      todo := todo - {key};
    }
    assert result == merged;
  }

  // --------------------------------------------------------------------- its laws

  lemma {:induction false} MergeIdempotent(t: Tree)
    ensures Merge(t, t) == t
  {
    if t.Dict? {
      forall k | k in t.items ensures Merge(t.items[k], t.items[k]) == t.items[k] {
        MergeIdempotent(t.items[k]);
      }
    }
  }

  lemma MergeUnit(t: Tree)
    requires t.Dict?
    ensures Merge(t, Empty) == t && Merge(Empty, t) == t
  {
    assert Merge(t, Empty).items == t.items && Merge(Empty, t).items == t.items;
  }

  /** Everything in t is overridden by c. */
  predicate Covers(c: Tree, t: Tree)
    decreases t
  {
    c.Dict? && t.Dict? ==> forall k :: k in t.items ==> k in c.items && Covers(c.items[k], t.items[k])
  }

  lemma {:induction false} CoversExactly(c: Tree, t: Tree)
    ensures Covers(c, t) <==> Merge(t, c) == c
    decreases t
  {
    if c.Dict? && t.Dict? {
      forall k | k in t.items && k in c.items
        ensures Covers(c.items[k], t.items[k]) <==> Merge(t.items[k], c.items[k]) == c.items[k]
      {
        CoversExactly(c.items[k], t.items[k]);
      }
      var m := Merge(t, c).items;
      if Covers(c, t) {
        assert m == c.items;
      } else {
        var k :| k in t.items && !(k in c.items && Covers(c.items[k], t.items[k]));
        assert k in m;
      }
    }
  }

  /** Wherever a scalar of b sits between two dicts, c overrides all that a has there. */
  predicate ScalarsBetweenHarmless(a: Tree, b: Tree, c: Tree)
    decreases b
  {
    if a.Dict? && b.Leaf? && c.Dict? then Covers(c, a)
    else a.Dict? && b.Dict? && c.Dict? ==>
      forall k :: k in a.items && k in b.items && k in c.items ==>
        ScalarsBetweenHarmless(a.items[k], b.items[k], c.items[k])
  }

  lemma {:induction false} MergeAssociativeExactly(a: Tree, b: Tree, c: Tree)
    ensures Merge(Merge(a, b), c) == Merge(a, Merge(b, c)) <==> ScalarsBetweenHarmless(a, b, c)
    decreases b
  {
    var left, right := Merge(Merge(a, b), c), Merge(a, Merge(b, c));
    if a.Dict? && b.Leaf? && c.Dict? {
      CoversExactly(c, a);
    } else if a.Dict? && b.Dict? && c.Dict? {
      assert left.items.Keys == right.items.Keys;
      forall k | k in left.items
        ensures left.items[k] == right.items[k]
                <==> (k in a.items && k in b.items && k in c.items ==> ScalarsBetweenHarmless(a.items[k], b.items[k], c.items[k]))
      {
        if k in a.items && k in b.items && k in c.items {
          MergeAssociativeExactly(a.items[k], b.items[k], c.items[k]);
        }
      }
      if ScalarsBetweenHarmless(a, b, c) {
        assert left.items == right.items;
      } else {
        var k :| k in a.items && k in b.items && k in c.items && !ScalarsBetweenHarmless(a.items[k], b.items[k], c.items[k]);
        assert k in left.items && left.items[k] != right.items[k];
      }
    }
  }

  // ------------------------------------------------------------ compatible shapes

  /** No path is a dict in one tree and a scalar in the other. */
  predicate Compatible(a: Tree, b: Tree)
    decreases a
  {
    if a.Dict? && b.Dict? then forall k :: k in a.items && k in b.items ==> Compatible(a.items[k], b.items[k])
    else a.Leaf? && b.Leaf?
  }

  lemma {:induction false} CompatibleHarmless(a: Tree, b: Tree, c: Tree)
    requires Compatible(a, b) && Compatible(b, c)
    ensures ScalarsBetweenHarmless(a, b, c)
    decreases b
  {
    if a.Dict? && b.Dict? && c.Dict? {
      forall k | k in a.items && k in b.items && k in c.items
        ensures ScalarsBetweenHarmless(a.items[k], b.items[k], c.items[k])
      {
        CompatibleHarmless(a.items[k], b.items[k], c.items[k]);
      }
    }
  }

  /** On compatible trees merging is associative. */
  lemma MergeAssociative(a: Tree, b: Tree, c: Tree)
    requires Compatible(a, b) && Compatible(b, c)
    ensures Merge(Merge(a, b), c) == Merge(a, Merge(b, c))
  {
    CompatibleHarmless(a, b, c);
    MergeAssociativeExactly(a, b, c);
  }

  lemma {:induction false} MergeCompatible(a: Tree, b: Tree, c: Tree)
    requires Compatible(a, c) && Compatible(b, c)
    ensures Compatible(Merge(a, b), c)
    decreases b
  {
    if a.Dict? && b.Dict? {
      var m := Merge(a, b).items;
      forall k | k in m && k in c.items ensures Compatible(m[k], c.items[k]) {
        if k in a.items && k in b.items {
          MergeCompatible(a.items[k], b.items[k], c.items[k]);
        }
      }
    }
  }

  // ------------------------------------------------------------------- leaf paths

  function LeafAt(t: Tree, p: Path): Option<Scalar>
    decreases p
  {
    match t
    case Leaf(v) => if p == [] then Some(v) else None
    case Dict(items) => if p != [] && p[0] in items then LeafAt(items[p[0]], p[1..]) else None
  }

  lemma {:induction false} LeafOfMerge(a: Tree, b: Tree, p: Path)
    requires Compatible(a, b)
    ensures LeafAt(Merge(a, b), p) == if LeafAt(b, p).Some? then LeafAt(b, p) else LeafAt(a, p)
    decreases p
  {
    if a.Dict? && b.Dict? && p != [] && p[0] in a.items && p[0] in b.items {
      LeafOfMerge(a.items[p[0]], b.items[p[0]], p[1..]);
    }
  }

  // ---------------------------------------------------------- the fold over files

  function MergeAll(trees: seq<Tree>): Tree {
    if trees == [] then Empty else Merge(MergeAll(trees[..|trees| - 1]), trees[|trees| - 1])
  }

  /** What the last tree that has a leaf at p has there. */
  function LastLeaf(trees: seq<Tree>, p: Path): Option<Scalar> {
    if trees == [] then None
    else
      var last := LeafAt(trees[|trees| - 1], p);
      if last.Some? then last else LastLeaf(trees[..|trees| - 1], p)
  }

  predicate PairwiseCompatible(trees: seq<Tree>) {
    forall i, j :: 0 <= i < j < |trees| ==> Compatible(trees[i], trees[j])
  }

  lemma {:induction false} MergeAllCompatible(trees: seq<Tree>, c: Tree)
    requires c.Dict? && forall t <- trees :: Compatible(t, c)
    ensures Compatible(MergeAll(trees), c)
    decreases trees
  {
    if trees != [] {
      MergeAllCompatible(trees[..|trees| - 1], c);
      MergeCompatible(MergeAll(trees[..|trees| - 1]), trees[|trees| - 1], c);
    }
  }

  lemma {:induction false} MergeAllLastWins(trees: seq<Tree>, p: Path)
    requires (forall t <- trees :: t.Dict?) && PairwiseCompatible(trees)
    ensures LeafAt(MergeAll(trees), p) == LastLeaf(trees, p)
    decreases trees
  {
    if trees != [] {
      var n := |trees| - 1;
      MergeAllLastWins(trees[..n], p);
      MergeAllCompatible(trees[..n], trees[n]);
      LeafOfMerge(MergeAll(trees[..n]), trees[n], p);
    }
  }

  /** What reading one file gave: a parsed document, or an exception. */
  datatype File = Parsed(tree: Tree) | Unreadable

  /** The documents that count: every mapping; an empty one merges to nothing new. */
  function Mappings(files: seq<File>): seq<Tree> {
    if files == [] then []
    else
      var last := files[|files| - 1];
      Mappings(files[..|files| - 1]) + (if last.Parsed? && last.tree.Dict? then [last.tree] else [])
  }

  lemma {:induction false} MappingsAreDicts(files: seq<File>)
    ensures forall t <- Mappings(files) :: t.Dict?
  {
    if files != [] {
      MappingsAreDicts(files[..|files| - 1]);
    }
  }

  /** The leaf at p of the last file that is a mapping and has one there. */
  function LeafInLastFile(files: seq<File>, p: Path): Option<Scalar> {
    if files == [] then None
    else
      var last := files[|files| - 1];
      if last.Parsed? && last.tree.Dict? && LeafAt(last.tree, p).Some? then LeafAt(last.tree, p)
      else LeafInLastFile(files[..|files| - 1], p)
  }

  lemma {:induction false} LastFileIsLastMapping(files: seq<File>, p: Path)
    ensures LastLeaf(Mappings(files), p) == LeafInLastFile(files, p)
  {
    if files != [] {
      var last, before := files[|files| - 1], Mappings(files[..|files| - 1]);
      LastFileIsLastMapping(files[..|files| - 1], p);
      if last.Parsed? && last.tree.Dict? {
        assert (before + [last.tree])[..|before|] == before;
      } else {
        assert before + [] == before;
      }
    }
  }

  /** On compatible mappings the loaded configuration has, at every path, the leaf of the last
      file that defines it. */
  lemma LoadedLastWins(files: seq<File>, p: Path)
    requires PairwiseCompatible(Mappings(files))
    ensures LeafAt(MergeAll(Mappings(files)), p) == LeafInLastFile(files, p)
  {
    MappingsAreDicts(files);
    MergeAllLastWins(Mappings(files), p);
    LastFileIsLastMapping(files, p);
  }

  /** The fold of load_config_file: files later in the order override earlier ones, and a
      file that cannot be read or is no mapping is passed over. */
  method LoadConfig(files: seq<File>) returns (config: map<string, Tree>)
    ensures Dict(config) == MergeAll(Mappings(files))
    ensures PairwiseCompatible(Mappings(files)) ==> forall p :: LeafAt(Dict(config), p) == LeafInLastFile(files, p)
  {
    config := map[];
    for i := 0 to |files|
      invariant Dict(config) == MergeAll(Mappings(files[..i]))
    {
      ghost var before := Mappings(files[..i]);
      assert files[..i + 1][..i] == files[..i];
      assert Mappings(files[..i + 1]) == before + if files[i].Parsed? && files[i].tree.Dict? then [files[i].tree] else [];
      if files[i].Parsed? && files[i].tree.Dict? {
        assert (before + [files[i].tree])[..|before|] == before;
        if files[i].tree.items != map[] {
          config := DeepMerge(config, files[i].tree.items);
        } else {
          MergeUnit(Dict(config));
        }
      } else {
        assert before + [] == before;
      }
    }
    assert files[..|files|] == files;
    if PairwiseCompatible(Mappings(files)) {
      forall p ensures LeafAt(Dict(config), p) == LeafInLastFile(files, p) { LoadedLastWins(files, p); }
    }
  }
}

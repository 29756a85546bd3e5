/** Layered configuration: an overlay merged onto a base, maps into maps. */
module ConfigMerge {

  /** A YAML value: a mapping, or anything else. */
  datatype Value = Leaf(text: string) | Node(entries: map<string, Value>)

  /** The overlay wins, except that two mappings under one key are merged. */
  function Merge(a: Value, b: Value): Value {
    if a.Node? && b.Node? then
      Node(map k | k in a.entries.Keys + b.entries.Keys ::
        if k !in b.entries then a.entries[k]
        else if k !in a.entries then b.entries[k]
        else Merge(a.entries[k], b.entries[k]))
    else b
  }

  /** What stands under key `k` of the merged mapping once the overlay's own `k` is in. */
  function MergedEntry(base: Value, overlay: Value, k: string): Value
    requires base.Node? && overlay.Node? && k in overlay.entries
  {
    if k in base.entries then Merge(base.entries[k], overlay.entries[k]) else overlay.entries[k]
  }

  /** Works on a copy of the base, key by key of the overlay. */
  method DeepMerge(base: Value, overlay: Value) returns (out: Value)
    requires base.Node? && overlay.Node?
    ensures out == Merge(base, overlay)
    decreases overlay
  {
    var entries := base.entries;
    var todo := overlay.entries.Keys;
    while todo != {}
      invariant todo <= overlay.entries.Keys
      invariant entries.Keys == base.entries.Keys + (overlay.entries.Keys - todo)
      invariant forall k :: k in overlay.entries && k !in todo ==> entries[k] == MergedEntry(base, overlay, k)
      invariant forall k :: k in base.entries && (k !in overlay.entries || k in todo) ==> entries[k] == base.entries[k]
      decreases todo
    {
      var k :| k in todo;
      todo := todo - {k};
      if k in entries && entries[k].Node? && overlay.entries[k].Node? {
        var merged := DeepMerge(entries[k], overlay.entries[k]);
        entries := entries[k := merged];
      } else {
        entries := entries[k := overlay.entries[k]];
      }
    }
    out := Node(entries);
    assert out.entries == Merge(base, overlay).entries;
  }

  lemma {:induction false} MergeIdempotent(a: Value)
    ensures Merge(a, a) == a
  {
    if a.Node? {
      forall k | k in a.entries
        ensures Merge(a.entries[k], a.entries[k]) == a.entries[k]
      {
        MergeIdempotent(a.entries[k]);
      }
      assert Merge(a, a).entries == a.entries;
    }
  }

  /** Merging the overlay again, or merging the base again below it, changes nothing. */
  lemma {:induction false} MergeAbsorbs(a: Value, b: Value)
    ensures Merge(Merge(a, b), b) == Merge(a, b)
    ensures a.Node? && b.Node? ==> Merge(a, Merge(a, b)) == Merge(a, b)
  {
    if a.Node? && b.Node? {
      var m := Merge(a, b);
      forall k | k in m.entries
        ensures k in b.entries ==> Merge(m.entries[k], b.entries[k]) == m.entries[k]
        ensures k in a.entries ==> Merge(a.entries[k], m.entries[k]) == m.entries[k]
      {
        if k in a.entries && k in b.entries {
          MergeAbsorbs(a.entries[k], b.entries[k]);
        } else if k in a.entries {
          MergeIdempotent(a.entries[k]);
        } else {
          MergeIdempotent(b.entries[k]);
        }
      }
      assert Merge(m, b).entries == m.entries;
      assert Merge(a, m).entries == m.entries;
    } else {
      MergeIdempotent(b);
    }
  }

  /** The value at the end of a path of keys, if there is one. */
  predicate HasPath(v: Value, path: seq<string>)
    decreases |path|
  {
    path != [] ==> v.Node? && path[0] in v.entries && HasPath(v.entries[path[0]], path[1..])
  }

  function At(v: Value, path: seq<string>): Value
    requires HasPath(v, path)
    decreases |path|
  {
    if path == [] then v else At(v.entries[path[0]], path[1..])
  }

  /** Every leaf of the overlay is where it was, with its value. */
  lemma {:induction false} OverlayLeavesSurvive(a: Value, b: Value, path: seq<string>)
    requires HasPath(b, path) && At(b, path).Leaf?
    ensures HasPath(Merge(a, b), path) && At(Merge(a, b), path) == At(b, path)
    decreases |path|
  {
    if path != [] && a.Node? && path[0] in a.entries {
      OverlayLeavesSurvive(a.entries[path[0]], b.entries[path[0]], path[1..]);
    }
  }

  /** A leaf of the base survives exactly where the overlay has nothing at its path or at a leaf above it. */
  predicate Untouched(b: Value, path: seq<string>)
    decreases |path|
  {
    path != [] && b.Node? && (path[0] in b.entries ==> Untouched(b.entries[path[0]], path[1..]))
  }

  lemma {:induction false} BaseLeavesSurviveIff(a: Value, b: Value, path: seq<string>)
    requires HasPath(a, path) && At(a, path).Leaf? && path != [] && b.Node?
    ensures HasPath(Merge(a, b), path) && At(Merge(a, b), path) == At(a, path)
       <==> Untouched(b, path) || (HasPath(b, path) && At(b, path) == At(a, path))
    decreases |path|
  {
    var k := path[0];
    if k in b.entries && path[1..] != [] && b.entries[k].Node? {
      BaseLeavesSurviveIff(a.entries[k], b.entries[k], path[1..]);
    }
  }

  /** `b` already holds whatever merging it onto `a` would bring: `Merge(a, b)` is `b`. */
  predicate Covers(b: Value, a: Value) {
    a.Node? && b.Node? ==> forall k :: k in a.entries ==> k in b.entries && Covers(b.entries[k], a.entries[k])
  }

  lemma {:induction false} CoversIff(a: Value, b: Value)
    ensures Covers(b, a) <==> Merge(a, b) == b
  {
    if a.Node? && b.Node? {
      forall k | k in a.entries && k in b.entries
        ensures Covers(b.entries[k], a.entries[k]) <==> Merge(a.entries[k], b.entries[k]) == b.entries[k]
      {
        CoversIff(a.entries[k], b.entries[k]);
      }
      if Covers(b, a) {
        assert Merge(a, b).entries == b.entries;
      } else {
        var k :| k in a.entries && !(k in b.entries && Covers(b.entries[k], a.entries[k]));
        assert k in Merge(a, b).entries;
        if k in b.entries {
          assert Merge(a, b).entries[k] == Merge(a.entries[k], b.entries[k]);
        }
      }
    }
  }

  /** Where associativity breaks: a leaf of the middle layer hides a mapping of the bottom one, and the top layer
      brings a mapping back that does not hold all of the hidden one. */
  predicate Clash(a: Value, b: Value, c: Value) {
    a.Node? && c.Node? &&
    if b.Leaf? then !Covers(c, a)
    else exists k :: k in a.entries && k in b.entries && k in c.entries
                     && Clash(a.entries[k], b.entries[k], c.entries[k])
  }

  /** Three layers merge to the same whichever pair is merged first, if and only if they do not clash. */
  lemma {:induction false} AssociativeIff(a: Value, b: Value, c: Value)
    ensures Merge(Merge(a, b), c) == Merge(a, Merge(b, c)) <==> !Clash(a, b, c)
  {
    if a.Node? && c.Node? {
      if b.Leaf? {
        CoversIff(a, c);
      } else {
        var left, right := Merge(Merge(a, b), c), Merge(a, Merge(b, c));
        assert left.entries.Keys == right.entries.Keys;
        forall k | k in left.entries
          ensures left.entries[k] == right.entries[k] <==>
            !(k in a.entries && k in b.entries && k in c.entries && Clash(a.entries[k], b.entries[k], c.entries[k]))
        {
          if k in a.entries && k in b.entries && k in c.entries {
            AssociativeIff(a.entries[k], b.entries[k], c.entries[k]);
          }
        }
        if !Clash(a, b, c) {
          assert left.entries == right.entries;
        }
      }
    }
  }

  /** Layers that agree on which shared keys are mappings never clash. */
  predicate Agree(a: Value, b: Value, c: Value) {
    a.Node? && b.Node? && c.Node? &&
    forall k :: k in a.entries && k in b.entries && k in c.entries ==>
      || (a.entries[k].Leaf? && b.entries[k].Leaf? && c.entries[k].Leaf?)
      || Agree(a.entries[k], b.entries[k], c.entries[k])
  }

  lemma {:induction false} AgreeingLayersAssociate(a: Value, b: Value, c: Value)
    requires Agree(a, b, c)
    ensures !Clash(a, b, c) && Merge(Merge(a, b), c) == Merge(a, Merge(b, c))
  {
    forall k | k in a.entries && k in b.entries && k in c.entries
      ensures !Clash(a.entries[k], b.entries[k], c.entries[k])
    {
      if !a.entries[k].Leaf? {
        AgreeingLayersAssociate(a.entries[k], b.entries[k], c.entries[k]);
      }
    }
    AssociativeIff(a, b, c);
  }

  lemma {:induction false} MergeUnderOneKey(k: string, x: Value, y: Value)
    ensures Merge(Node(map[k := x]), Node(map[k := y])) == Node(map[k := Merge(x, y)])
  {
    assert Merge(Node(map[k := x]), Node(map[k := y])).entries == map[k := Merge(x, y)];
  }

  lemma {:induction false} MergeOfTwoKeys(j: string, k: string, x: Value, y: Value)
    requires j != k
    ensures Merge(Node(map[j := x]), Node(map[k := y])) == Node(map[j := x, k := y])
  {
    assert Merge(Node(map[j := x]), Node(map[k := y])).entries == map[j := x, k := y];
  }

  /** Layers that do clash, and the two results. */
  lemma {:induction false} MergeIsNotAssociative(host: Value, port: Value, off: string)
    ensures var a := Node(map["ib" := Node(map["host" := host])]);
      var b := Node(map["ib" := Leaf(off)]);
      var c := Node(map["ib" := Node(map["port" := port])]);
      && Merge(Merge(a, b), c) == Node(map["ib" := Node(map["port" := port])])
      && Merge(a, Merge(b, c)) == Node(map["ib" := Node(map["host" := host, "port" := port])])
  {
    var x, y := Node(map["host" := host]), Node(map["port" := port]);
    assert "host"[0] != "port"[0];
    MergeOfTwoKeys("host", "port", host, port);
    MergeUnderOneKey("ib", x, Leaf(off));
    MergeUnderOneKey("ib", Leaf(off), y);
    MergeUnderOneKey("ib", x, y);
  }
}

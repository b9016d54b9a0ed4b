/** spa/src/shell/search-hits.tsx: hits grouped by kind without overruling their order. */
module Hits {
  datatype Hit = Hit(kind: string, title: string, hint: string)

  const KIND_LABEL: map<string, string> := map[
    "screen" := "Экраны", "task" := "Задачи", "note" := "Память",
    "rule" := "Правила", "agent" := "Агенты", "attempt" := "Попытки"]

  function LabelOf(kind: string): string {
    if kind in KIND_LABEL then KIND_LABEL[kind] else kind
  }

  /** The six titles; a kind the window does not know is its own title. */
  lemma TitlesOfKinds(kind: string)
    ensures LabelOf("screen") == "Экраны" && LabelOf("task") == "Задачи" && LabelOf("note") == "Память"
    ensures LabelOf("rule") == "Правила" && LabelOf("agent") == "Агенты" && LabelOf("attempt") == "Попытки"
    ensures kind !in {"screen", "task", "note", "rule", "agent", "attempt"} ==> LabelOf(kind) == kind
  {
  }

  /** One group object, shared by the map and the array while the groups are built. */
  class HitGroup {
    const kind: string
    const title: string
    var hits: seq<Hit>

    constructor (kind: string)
      ensures this.kind == kind && title == LabelOf(kind) && hits == []
    {
      this.kind, this.title := kind, LabelOf(kind);
      hits := [];
    }

    method Push(hit: Hit)
      modifies this
      ensures hits == old(hits) + [hit]
    {
      hits := hits + [hit];
    }
  }

  // ------------------------------------------------- the specification

  /** The hits of one kind, in the order they arrived. */
  function OfKind(hits: seq<Hit>, kind: string): seq<Hit> {
    if hits == [] then []
    else OfKind(hits[..|hits| - 1], kind) + if hits[|hits| - 1].kind == kind then [hits[|hits| - 1]] else []
  }

  /** The kinds in the order their first hit arrived. */
  function Kinds(hits: seq<Hit>): seq<string> {
    if hits == [] then [] else
    var front, last := Kinds(hits[..|hits| - 1]), hits[|hits| - 1].kind;
    if last in front then front else front + [last]
  }

  predicate Distinct(kinds: seq<string>) {
    forall i, j :: 0 <= i < j < |kinds| ==> kinds[i] != kinds[j]
  }

  lemma {:induction false} KindsAreDistinct(hits: seq<Hit>)
    ensures Distinct(Kinds(hits))
    ensures forall kind :: kind in Kinds(hits) <==> exists i :: 0 <= i < |hits| && hits[i].kind == kind
  {
    if hits == [] {
    } else {
      var n := |hits| - 1;
      KindsAreDistinct(hits[..n]);
      forall kind ensures kind in Kinds(hits) <==> exists i :: 0 <= i < |hits| && hits[i].kind == kind {
        if kind in Kinds(hits[..n]) {
          var i :| 0 <= i < n && hits[..n][i].kind == kind;
          assert hits[i].kind == kind;
        } else {
          assert forall i :: 0 <= i < n ==> hits[..n][i] == hits[i];
        }
      }
    }
  }

  function WithKind(done: seq<Hit>, kind: string): seq<string> {
    if kind in Kinds(done) then Kinds(done) else Kinds(done) + [kind]
  }

  /**
   * The array and the map hold the same objects, one for each kind in the order of `kinds`, and
   * each object holds its kind's hits so far.
   */
  ghost predicate Filed(done: seq<Hit>, kinds: seq<string>, groups: seq<HitGroup>, byKind: map<string, HitGroup>)
    reads groups
  {
    && |groups| == |kinds|
    && (forall g :: 0 <= g < |groups| ==>
         && groups[g].kind == kinds[g] && groups[g].title == LabelOf(kinds[g])
         && groups[g].hits == OfKind(done, kinds[g])
         && kinds[g] in byKind && byKind[kinds[g]] == groups[g])
    && (forall kind :: kind in byKind ==> kind in kinds)
  }

  lemma OneMoreHit(hits: seq<Hit>, i: nat)
    requires i < |hits|
    ensures Kinds(hits[..i + 1]) == WithKind(hits[..i], hits[i].kind)
    ensures forall kind :: OfKind(hits[..i + 1], kind) ==
                           OfKind(hits[..i], kind) + if hits[i].kind == kind then [hits[i]] else []
  {
    assert hits[..i + 1][..i] == hits[..i];
  }

  lemma {:induction false} NoneOfKind(hits: seq<Hit>, kind: string)
    requires kind !in Kinds(hits)
    ensures OfKind(hits, kind) == []
  {
    if hits == [] {
    } else {
      NoneOfKind(hits[..|hits| - 1], kind);
    }
  }

  // ------------------------------------------------- the grouping itself

  /** `byKind.get(kind)`, or a new empty group put into the map and at the end of the array. */
  method GroupFor(kind: string, groups: seq<HitGroup>, byKind: map<string, HitGroup>, ghost done: seq<Hit>)
    returns (group: HitGroup, all: seq<HitGroup>, filed: map<string, HitGroup>)
    requires Filed(done, Kinds(done), groups, byKind)
    ensures Filed(done, WithKind(done, kind), all, filed)
    ensures group.kind == kind && group in all
    ensures forall g :: g in all ==> g in groups || (fresh(g) && g == group)
  {
    KindsAreDistinct(done);
    if kind in byKind {
      group, all, filed := byKind[kind], groups, byKind;
    } else {
      NoneOfKind(done, kind);
      group := new HitGroup(kind);
      all, filed := groups + [group], byKind[kind := group];
    }
  }

  method GroupHits(hits: seq<Hit>) returns (groups: seq<HitGroup>)
    ensures |groups| == |Kinds(hits)|
    ensures forall g :: 0 <= g < |groups| ==>
              && fresh(groups[g])
              && groups[g].kind == Kinds(hits)[g] && groups[g].title == LabelOf(groups[g].kind)
              && groups[g].hits == OfKind(hits, groups[g].kind)
    ensures forall g, k :: 0 <= g < k < |groups| ==> groups[g] != groups[k]
  {
    groups := [];
    var byKind: map<string, HitGroup> := map[];
    for i := 0 to |hits|
      invariant Filed(hits[..i], Kinds(hits[..i]), groups, byKind)
      invariant forall g :: g in groups ==> fresh(g)
    {
      var group;
      group, groups, byKind := GroupFor(hits[i].kind, groups, byKind, hits[..i]);
      group.Push(hits[i]);
      OneMoreHit(hits, i);
    }
    assert hits[..|hits|] == hits;
    KindsAreDistinct(hits);
    assert forall g :: 0 <= g < |groups| ==> groups[g] in groups;
  }

  // ------------------------------------------------- what the grouping keeps

  /** The groups laid end to end. */
  function Laid(hits: seq<Hit>, kinds: seq<string>): seq<Hit> {
    if kinds == [] then [] else Laid(hits, kinds[..|kinds| - 1]) + OfKind(hits, kinds[|kinds| - 1])
  }

  function Flattened(hits: seq<Hit>): seq<Hit> {
    Laid(hits, Kinds(hits))
  }

  /** A hit is in its own group as often as it arrived, and in no other. */
  lemma {:induction false} CountOfKind(hits: seq<Hit>, kind: string, hit: Hit)
    ensures multiset(OfKind(hits, kind))[hit] == if hit.kind == kind then multiset(hits)[hit] else 0
  {
    if hits == [] {
    } else {
      var n := |hits| - 1;
      CountOfKind(hits[..n], kind, hit);
      assert hits == hits[..n] + [hits[n]];
    }
  }

  lemma {:induction false} CountLaid(hits: seq<Hit>, kinds: seq<string>, hit: Hit)
    requires Distinct(kinds)
    ensures multiset(Laid(hits, kinds))[hit] == if hit.kind in kinds then multiset(hits)[hit] else 0
  {
    if kinds == [] {
    } else {
      var n := |kinds| - 1;
      assert kinds == kinds[..n] + [kinds[n]];
      CountLaid(hits, kinds[..n], hit);
      CountOfKind(hits, kinds[n], hit);
    }
  }

  lemma FlattenedIsPermutation(hits: seq<Hit>)
    ensures multiset(Flattened(hits)) == multiset(hits)
  {
    KindsAreDistinct(hits);
    forall hit ensures multiset(Flattened(hits))[hit] == multiset(hits)[hit] {
      CountLaid(hits, Kinds(hits), hit);
      if hit in hits {
        var i :| 0 <= i < |hits| && hits[i] == hit;
        assert hits[i].kind in Kinds(hits);
      }
    }
  }

  lemma {:induction false} OfKindSum(a: seq<Hit>, b: seq<Hit>, kind: string)
    ensures OfKind(a + b, kind) == OfKind(a, kind) + OfKind(b, kind)
  {
    if b == [] {
      assert a + b == a;
    } else {
      assert (a + b)[..|a + b| - 1] == a + b[..|b| - 1];
      OfKindSum(a, b[..|b| - 1], kind);
    }
  }

  lemma OfKindOfOne(hit: Hit, kind: string)
    ensures OfKind([hit], kind) == if hit.kind == kind then [hit] else []
  {
    assert [hit][..0] == [];
  }

  lemma {:induction false} OfKindOfKind(hits: seq<Hit>, kind: string, other: string)
    ensures OfKind(OfKind(hits, other), kind) == if kind == other then OfKind(hits, kind) else []
  {
    if hits == [] {
    } else {
      var n := |hits| - 1;
      OfKindOfKind(hits[..n], kind, other);
      if hits[n].kind == other {
        OfKindSum(OfKind(hits[..n], other), [hits[n]], kind);
        OfKindOfOne(hits[n], kind);
      } else {
        assert OfKind(hits, other) == OfKind(hits[..n], other);
      }
    }
  }

  lemma {:induction false} OfKindLaid(hits: seq<Hit>, kinds: seq<string>, kind: string)
    requires Distinct(kinds)
    ensures OfKind(Laid(hits, kinds), kind) == if kind in kinds then OfKind(hits, kind) else []
  {
    if kinds == [] {
    } else {
      var n := |kinds| - 1;
      assert kinds == kinds[..n] + [kinds[n]];
      OfKindLaid(hits, kinds[..n], kind);
      OfKindSum(Laid(hits, kinds[..n]), OfKind(hits, kinds[n]), kind);
      OfKindOfKind(hits, kind, kinds[n]);
    }
  }

  /** Laying a non-empty run of one new kind at the end adds that kind and nothing else. */
  lemma {:induction false} KindsWithRun(front: seq<Hit>, run: seq<Hit>, kind: string)
    requires forall i :: 0 <= i < |run| ==> run[i].kind == kind
    requires run != [] || kind in Kinds(front)
    ensures Kinds(front + run) == if kind in Kinds(front) then Kinds(front) else Kinds(front) + [kind]
  {
    if run == [] {
      assert front + run == front;
    } else {
      var n := |run| - 1;
      assert (front + run)[..|front + run| - 1] == front + run[..n];
      if n > 0 || kind in Kinds(front) {
        KindsWithRun(front, run[..n], kind);
      } else {
        assert front + run[..n] == front;
      }
    }
  }

  lemma {:induction false} AllOfKind(hits: seq<Hit>, kind: string)
    ensures forall i :: 0 <= i < |OfKind(hits, kind)| ==> OfKind(hits, kind)[i].kind == kind
    ensures kind in Kinds(hits) ==> OfKind(hits, kind) != []
  {
    if hits == [] {
    } else {
      AllOfKind(hits[..|hits| - 1], kind);
    }
  }

  lemma KindsOneMore(hits: seq<Hit>, laid: seq<Hit>, kind: string)
    requires kind in Kinds(hits) && kind !in Kinds(laid)
    ensures Kinds(laid + OfKind(hits, kind)) == Kinds(laid) + [kind]
  {
    AllOfKind(hits, kind);
    KindsWithRun(laid, OfKind(hits, kind), kind);
  }

  lemma {:induction false} LaidOneMore(hits: seq<Hit>, front: seq<string>, kind: string)
    requires Kinds(Laid(hits, front)) == front && kind in Kinds(hits) && kind !in front
    ensures Kinds(Laid(hits, front + [kind])) == front + [kind]
  {
    assert (front + [kind])[..|front|] == front;
    assert Laid(hits, front + [kind]) == Laid(hits, front) + OfKind(hits, kind);
    KindsOneMore(hits, Laid(hits, front), kind);
  }

  lemma LastIsNew(kinds: seq<string>)
    requires Distinct(kinds) && kinds != []
    ensures Distinct(kinds[..|kinds| - 1]) && kinds[|kinds| - 1] !in kinds[..|kinds| - 1]
    ensures kinds == kinds[..|kinds| - 1] + [kinds[|kinds| - 1]]
  {
  }

  lemma {:induction false} KindsLaid(hits: seq<Hit>, kinds: seq<string>)
    requires Distinct(kinds) && forall i :: 0 <= i < |kinds| ==> kinds[i] in Kinds(hits)
    ensures Kinds(Laid(hits, kinds)) == kinds
  {
    if kinds == [] {
    } else {
      var front, kind := kinds[..|kinds| - 1], kinds[|kinds| - 1];
      LastIsNew(kinds);
      forall i | 0 <= i < |front| ensures front[i] in Kinds(hits) { assert front[i] == kinds[i]; }
      KindsLaid(hits, front);
      LaidOneMore(hits, front, kind);
    }
  }

  lemma {:induction false} FirstStaysFirst(hits: seq<Hit>)
    requires hits != []
    ensures Kinds(hits) != [] && Kinds(hits)[0] == hits[0].kind
    ensures OfKind(hits, hits[0].kind) != [] && OfKind(hits, hits[0].kind)[0] == hits[0]
  {
    if |hits| > 1 {
      FirstStaysFirst(hits[..|hits| - 1]);
    } else {
      assert hits[..0] == [];
    }
  }

  lemma {:induction false} LaidBegins(hits: seq<Hit>, kinds: seq<string>)
    requires kinds != []
    ensures OfKind(hits, kinds[0]) <= Laid(hits, kinds)
  {
    if |kinds| > 1 {
      LaidBegins(hits, kinds[..|kinds| - 1]);
    } else {
      assert kinds[..0] == [];
      assert Laid(hits, []) + OfKind(hits, kinds[0]) == OfKind(hits, kinds[0]);
    }
  }

  /**
   * Grouping is a stable partition: the groups laid end to end are a permutation of the hits,
   * begin with the hit the daemon thought best, and grouping them again gives the same kinds
   * in the same order with the same hits inside.
   */
  lemma GroupingIsAStablePartition(hits: seq<Hit>)
    ensures multiset(Flattened(hits)) == multiset(hits)
    ensures hits != [] ==> Flattened(hits) != [] && Flattened(hits)[0] == hits[0]
    ensures Kinds(Flattened(hits)) == Kinds(hits)
    ensures forall kind :: OfKind(Flattened(hits), kind) == OfKind(hits, kind)
  {
    FlattenedIsPermutation(hits);
    KindsAreDistinct(hits);
    KindsLaid(hits, Kinds(hits));
    if hits != [] {
      FirstStaysFirst(hits);
      LaidBegins(hits, Kinds(hits));
    }
    forall kind ensures OfKind(Flattened(hits), kind) == OfKind(hits, kind) {
      OfKindLaid(hits, Kinds(hits), kind);
      if kind !in Kinds(hits) { NoneOfKind(hits, kind); }
    }
  }
}

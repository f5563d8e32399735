/** What the greedy pass and its fallback promise about the compatibility graph. */
module AutoMapTheorems {
  import opened MaterialMapping
  import opened AutoMap

  // ----- The greedy pass is the unique stable matching -----

  /** Positions of pairs, no two of which share a filament or a slot. */
  ghost predicate Matching(pairs: seq<Pair>, chosen: set<nat>) {
    && (forall k | k in chosen :: k < |pairs|)
    && (forall j, k | j in chosen && k in chosen && j < k :: !Conflict(pairs[j], pairs[k]))
  }

  /** Every pair left out loses its filament or its slot to an earlier, preferred pair. */
  ghost predicate Stable(pairs: seq<Pair>, chosen: set<nat>) {
    && Matching(pairs, chosen)
    && (forall k: nat | k < |pairs| && k !in chosen :: exists j | j in chosen :: j < k && Conflict(pairs[j], pairs[k]))
  }

  ghost function TakenPositions(pairs: seq<Pair>): set<nat> {
    set k: nat | k < |pairs| && Taken(pairs, k)
  }

  lemma GreedyIsStable(pairs: seq<Pair>)
    ensures Stable(pairs, TakenPositions(pairs))
  {
    var taken := TakenPositions(pairs);
    forall k: nat | k < |pairs| && k !in taken
      ensures exists j | j in taken :: j < k && Conflict(pairs[j], pairs[k])
    {
      var j: nat :| j < k && Taken(pairs, j) && Conflict(pairs[j], pairs[k]);
      assert j in taken;
    }
  }

  lemma {:induction false} StableAgreesUpTo(pairs: seq<Pair>, chosen: set<nat>, n: nat)
    requires Stable(pairs, chosen) && n <= |pairs|
    ensures forall k: nat | k < n :: k in chosen <==> Taken(pairs, k)
  {
    if n > 0 {
      StableAgreesUpTo(pairs, chosen, n - 1);
    }
  }

  /** No other selection of pairs is stable, so the greedy result is fully determined. */
  lemma StableIsUnique(pairs: seq<Pair>, chosen: set<nat>)
    requires Stable(pairs, chosen)
    ensures chosen == TakenPositions(pairs)
  {
    StableAgreesUpTo(pairs, chosen, |pairs|);
  }

  /**
   A filament passes over a preferred pair only because the pair's slot already went to
   another filament by a still earlier pair.
  */
  lemma PassedOverWereTaken(pairs: seq<Pair>, j: nat, k: nat)
    requires j < k < |pairs| && Taken(pairs, k) && pairs[j].mappingIndex == pairs[k].mappingIndex
    ensures exists i: nat | i < j ::
              Taken(pairs, i) && pairs[i].slotKey == pairs[j].slotKey && pairs[i].mappingIndex != pairs[j].mappingIndex
  {
    assert !Taken(pairs, j);
    var i: nat :| i < j && Taken(pairs, i) && Conflict(pairs[i], pairs[j]);
    assert !Conflict(pairs[i], pairs[k]);
  }

  /**
   In preference order: every compatible pair is matched itself, or its filament or its
   slot is matched by a pair that sorts no later.
  */
  lemma NoBlockingPair(
    palette: Palette, filaments: seq<ProjectFilament>, slots: seq<PrinterAmsSlot>, useAms: bool, p: Pair)
    requires OrdersKeys(palette)
    requires p in CompatiblePairs(palette, filaments, slots, useAms)
    ensures var pairs := CompatiblePairs(palette, filaments, slots, useAms);
            var g := Greedy(pairs, |pairs|);
            exists q | q in pairs ::
              && q.mappingIndex in g && g[q.mappingIndex] == q.slotKey
              && Conflict(q, p) && (q == p || PairLe(palette, q, p))
  {
    var pairs := CompatiblePairs(palette, filaments, slots, useAms);
    SortSorts(palette, UnsortedPairs(palette, filaments, slots, useAms));
    GreedyIsTaken(pairs, |pairs|);
    var k: nat :| k < |pairs| && pairs[k] == p;
    var j := k;
    if !Taken(pairs, k) {
      j :| 0 <= j < k && Taken(pairs, j) && Conflict(pairs[j], pairs[k]);
    }
    assert Gives(pairs, |pairs|, pairs[j].mappingIndex, pairs[j].slotKey);
    assert pairs[j] in pairs;
  }

  /** Pairing `a` with `s` comes no later than `b` with `t`: by rank, then filament index, then slot key. */
  ghost predicate ComesNoLater(
    palette: Palette, a: ProjectFilament, s: PrinterAmsSlot, b: ProjectFilament, t: PrinterAmsSlot)
  {
    || Precedes(RankOf(palette, a, s), RankOf(palette, b, t))
    || (!Precedes(RankOf(palette, b, t), RankOf(palette, a, s))
        && (a.mappingIndex < b.mappingIndex || (a.mappingIndex == b.mappingIndex && palette.keyLe(s.key, t.key))))
  }

  lemma PairLeIsRank(palette: Palette, a: ProjectFilament, s: PrinterAmsSlot, b: ProjectFilament, t: PrinterAmsSlot)
    requires BoundedDistances(palette)
    ensures PairLe(palette, ToPair(palette, a, s), ToPair(palette, b, t)) <==> ComesNoLater(palette, a, s, b, t)
  {
    DistanceIsLexicographic(palette, a, s, b, t);
    DistanceIsLexicographic(palette, b, t, a, s);
  }

  /**
   The same on filaments and slots: whenever two are compatible, the filament or the slot is
   matched in a compatible pairing that comes no later.
  */
  lemma NoBetterPairing(
    palette: Palette, filaments: seq<ProjectFilament>, slots: seq<PrinterAmsSlot>, useAms: bool, f: nat, j: nat)
    returns (g: nat, k: nat)
    requires OrdersKeys(palette) && BoundedDistances(palette)
    requires f < |filaments| && j < |slots| && Compatible(palette, filaments[f], slots[j], slots, useAms)
    ensures g < |filaments| && k < |slots| && Compatible(palette, filaments[g], slots[k], slots, useAms)
    ensures var pairs := CompatiblePairs(palette, filaments, slots, useAms);
            var matched := Greedy(pairs, |pairs|);
            filaments[g].mappingIndex in matched && matched[filaments[g].mappingIndex] == slots[k].key
    ensures filaments[g].mappingIndex == filaments[f].mappingIndex || slots[k].key == slots[j].key
    ensures ComesNoLater(palette, filaments[g], slots[k], filaments[f], slots[j])
  {
    var pairs := CompatiblePairs(palette, filaments, slots, useAms);
    var matched := Greedy(pairs, |pairs|);
    var p := ToPair(palette, filaments[f], slots[j]);
    assert PairOf(palette, filaments, slots, useAms, f, j, p);
    CompatiblePairsAreCompatible(palette, filaments, slots, useAms, p);
    NoBlockingPair(palette, filaments, slots, useAms, p);
    var q :| q in pairs && q.mappingIndex in matched && matched[q.mappingIndex] == q.slotKey
             && Conflict(q, p) && (q == p || PairLe(palette, q, p));
    CompatiblePairsAreCompatible(palette, filaments, slots, useAms, q);
    g, k :| 0 <= g < |filaments| && 0 <= k < |slots| && PairOf(palette, filaments, slots, useAms, g, k, q);
    PairLeIsRank(palette, filaments[g], slots[k], filaments[f], slots[j]);
  }

  // ----- Half of any matching -----

  /** An edge of the compatibility graph: a filament index and a slot key. */
  ghost predicate IsEdge(pairs: seq<Pair>, e: (nat, string)) {
    exists k | 0 <= k < |pairs| :: pairs[k].mappingIndex == e.0 && pairs[k].slotKey == e.1
  }

  ghost predicate EdgeMatching(pairs: seq<Pair>, m: set<(nat, string)>) {
    && (forall e | e in m :: IsEdge(pairs, e))
    && (forall d, e | d in m && e in m && d != e :: d.0 != e.0 && d.1 != e.1)
  }

  lemma {:induction false} InjectiveFirst(m: set<(nat, string)>, bound: set<nat>)
    requires forall d, e | d in m && e in m && d != e :: d.0 != e.0
    requires forall e | e in m :: e.0 in bound
    ensures |m| <= |bound|
    decreases m
  {
    if m != {} {
      var e :| e in m;
      InjectiveFirst(m - {e}, bound - {e.0});
    }
  }

  lemma {:induction false} InjectiveSecond(m: set<(nat, string)>, bound: set<string>)
    requires forall d, e | d in m && e in m && d != e :: d.1 != e.1
    requires forall e | e in m :: e.1 in bound
    ensures |m| <= |bound|
    decreases m
  {
    if m != {} {
      var e :| e in m;
      InjectiveSecond(m - {e}, bound - {e.1});
    }
  }

  lemma {:induction false} ValuesAtMostKeys(m: Selections)
    ensures |m.Values| <= |m.Keys|
    decreases |m|
  {
    if m.Keys != {} {
      var i :| i in m.Keys;
      var rest := m - {i};
      assert rest.Keys == m.Keys - {i};
      ValuesAtMostKeys(rest);
      assert m.Values <= rest.Values + {m[i]} by {
        forall v | v in m.Values
          ensures v in rest.Values + {m[i]}
        {
          var j :| j in m && m[j] == v;
          assert j != i ==> j in rest && rest[j] == v;
        }
      }
      assert |m.Values| <= |rest.Values + {m[i]}| by { SubsetSize(m.Values, rest.Values + {m[i]}); }
    }
  }

  lemma {:induction false} SubsetSize<T>(a: set<T>, b: set<T>)
    requires a <= b
    ensures |a| <= |b|
  {
    assert b == a + (b - a);
  }

  /** Greedy matches at least half as many filaments as any matching of the graph. */
  lemma GreedyIsHalfOptimal(pairs: seq<Pair>, m: set<(nat, string)>)
    requires EdgeMatching(pairs, m)
    ensures |m| <= 2 * |Greedy(pairs, |pairs|)|
  {
    var g := Greedy(pairs, |pairs|);
    var byFilament := set e | e in m && e.0 in g.Keys;
    var bySlot := set e | e in m && e.1 in g.Values;
    forall e | e in m
      ensures e in byFilament + bySlot
    {
      var k :| 0 <= k < |pairs| && pairs[k].mappingIndex == e.0 && pairs[k].slotKey == e.1;
      TakenPairBlocks(pairs, k);
    }
    assert m == byFilament + bySlot;
    InjectiveFirst(byFilament, g.Keys);
    InjectiveSecond(bySlot, g.Values);
    ValuesAtMostKeys(g);
  }

  /** The greedy matching is maximal: every pair meets a matched filament or a matched slot. */
  lemma TakenPairBlocks(pairs: seq<Pair>, k: nat)
    requires k < |pairs|
    ensures pairs[k].mappingIndex in Greedy(pairs, |pairs|) || pairs[k].slotKey in Greedy(pairs, |pairs|).Values
  {
    var g := Greedy(pairs, |pairs|);
    GreedyIsTaken(pairs, |pairs|);
    var j := k;
    if !Taken(pairs, k) {
      j :| 0 <= j < k && Taken(pairs, j) && Conflict(pairs[j], pairs[k]);
    }
    assert Gives(pairs, |pairs|, pairs[j].mappingIndex, pairs[j].slotKey);
    assert g[pairs[j].mappingIndex] == pairs[j].slotKey;
  }

  /** Two filaments matched by the greedy pass never share a slot. */
  lemma GreedyIsInjective(pairs: seq<Pair>, a: nat, b: nat)
    requires a in Greedy(pairs, |pairs|) && b in Greedy(pairs, |pairs|)
    requires Greedy(pairs, |pairs|)[a] == Greedy(pairs, |pairs|)[b]
    ensures a == b
  {
    var g := Greedy(pairs, |pairs|);
    GreedyIsTaken(pairs, |pairs|);
    assert Gives(pairs, |pairs|, a, g[a]) && Gives(pairs, |pairs|, b, g[b]);
    var j: nat :| j < |pairs| && Taken(pairs, j) && pairs[j].mappingIndex == a && pairs[j].slotKey == g[a];
    var k: nat :| k < |pairs| && Taken(pairs, k) && pairs[k].mappingIndex == b && pairs[k].slotKey == g[b];
    assert j < k ==> !Conflict(pairs[j], pairs[k]);
    assert k < j ==> !Conflict(pairs[k], pairs[j]);
  }

  // ----- The fallback -----

  /**
   A filament shares a slot only when each of its compatible slots went to another
   filament by an earlier pair, and then it shares its most preferred one.
  */
  lemma SharingOnlyWhenAllTaken(palette: Palette, pairs: seq<Pair>, i: nat)
    requires Sorted(palette, pairs)
    requires i in AutoSelections(pairs) && i !in Greedy(pairs, |pairs|)
    ensures forall k: nat | k < |pairs| && pairs[k].mappingIndex == i ::
              exists j: nat | j < k ::
                Taken(pairs, j) && pairs[j].slotKey == pairs[k].slotKey && pairs[j].mappingIndex != i
    ensures exists b: nat | b < |pairs| ::
              && pairs[b].mappingIndex == i && pairs[b].slotKey == AutoSelections(pairs)[i]
              && forall k: nat | k < |pairs| && pairs[k].mappingIndex == i ::
                   k == b || PairLe(palette, pairs[b], pairs[k])
  {
    GreedyIsTaken(pairs, |pairs|);
    forall k: nat | k < |pairs| && pairs[k].mappingIndex == i
      ensures exists j: nat | j < k ::
                Taken(pairs, j) && pairs[j].slotKey == pairs[k].slotKey && pairs[j].mappingIndex != i
    {
      assert !Gives(pairs, |pairs|, i, pairs[k].slotKey);
      var j: nat :| j < k && Taken(pairs, j) && Conflict(pairs[j], pairs[k]);
      assert !Gives(pairs, |pairs|, i, pairs[j].slotKey);
    }
    FirstPairIsFirst(pairs, i);
    var b :| 0 <= b < |pairs| && pairs[b] == FirstPair(pairs, i).value && pairs[b].mappingIndex == i
             && forall j | 0 <= j < b :: pairs[j].mappingIndex != i;
  }

  /** A filament gets a slot exactly when it has a compatible one, and always a compatible one. */
  lemma SelectionIsCompatible(
    palette: Palette, filaments: seq<ProjectFilament>, slots: seq<PrinterAmsSlot>, useAms: bool, i: nat)
    ensures var selections := AutoSelections(CompatiblePairs(palette, filaments, slots, useAms));
            i in selections <==>
            exists f: nat, j: nat | f < |filaments| && j < |slots| ::
              filaments[f].mappingIndex == i && Compatible(palette, filaments[f], slots[j], slots, useAms)
    ensures var selections := AutoSelections(CompatiblePairs(palette, filaments, slots, useAms));
            i in selections ==>
            exists f: nat, j: nat | f < |filaments| && j < |slots| ::
              && filaments[f].mappingIndex == i && slots[j].key == selections[i]
              && Compatible(palette, filaments[f], slots[j], slots, useAms)
  {
    var pairs := CompatiblePairs(palette, filaments, slots, useAms);
    var selections := AutoSelections(pairs);
    if i in selections {
      var k := SelectedPair(pairs, i);
      CompatiblePairsAreCompatible(palette, filaments, slots, useAms, pairs[k]);
      var f: nat, j: nat :| f < |filaments| && j < |slots| && PairOf(palette, filaments, slots, useAms, f, j, pairs[k]);
      assert filaments[f].mappingIndex == i && Compatible(palette, filaments[f], slots[j], slots, useAms);
    }
    if f: nat, j: nat :| f < |filaments| && j < |slots| && filaments[f].mappingIndex == i
                         && Compatible(palette, filaments[f], slots[j], slots, useAms)
    {
      var p := ToPair(palette, filaments[f], slots[j]);
      assert PairOf(palette, filaments, slots, useAms, f, j, p);
      CompatiblePairsAreCompatible(palette, filaments, slots, useAms, p);
      assert p in pairs;
    }
  }

  lemma SelectedPair(pairs: seq<Pair>, i: nat) returns (k: nat)
    requires i in AutoSelections(pairs)
    ensures k < |pairs| && pairs[k].mappingIndex == i && pairs[k].slotKey == AutoSelections(pairs)[i]
  {
    var g := Greedy(pairs, |pairs|);
    if i in g {
      GreedyIsTaken(pairs, |pairs|);
      assert Gives(pairs, |pairs|, i, g[i]);
      k :| k < |pairs| && Taken(pairs, k) && pairs[k].mappingIndex == i && pairs[k].slotKey == g[i];
    } else {
      FirstPairIsFirst(pairs, i);
      k :| k < |pairs| && pairs[k] == FirstPair(pairs, i).value && pairs[k].mappingIndex == i;
    }
  }
}

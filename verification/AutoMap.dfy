/**
 Automatic slot selection of frontend/app/dispatch-material-auto-map.ts: compatible
 pairs in preference order, a greedy matching over two shrinking sets, and a sharing
 fallback for filaments left without a slot of their own.
*/
module AutoMap {
  import opened Basics
  import opened MaterialMapping

  datatype Pair = Pair(mappingIndex: nat, slotKey: string, distance: real)

  type Selections = map<nat, string>

  // ----- Compatible pairs -----

  predicate Compatible(
    palette: Palette, filament: ProjectFilament, slot: PrinterAmsSlot, slots: seq<PrinterAmsSlot>, useAms: bool)
  {
    && Eligible(palette, filament, slot, slots, useAms)
    && (useAms || slot.kind.Ams? ==>
          NormalizedType(palette, filament.filamentType) == NormalizedType(palette, slot.filamentType))
  }

  /**
   What compatibility comes to: the slot is not empty and can reach the nozzle, and with
   AMS on the types agree, while with AMS off the slot is an external one of any type.
  */
  lemma CompatibleMeans(
    palette: Palette, filament: ProjectFilament, slot: PrinterAmsSlot, slots: seq<PrinterAmsSlot>, useAms: bool)
    ensures Compatible(palette, filament, slot, slots, useAms) <==>
            && slot.present != Some(false) && RouteKnown(filament, slot, slots)
            && if useAms then TypesAgree(palette, filament.filamentType, slot.filamentType) else slot.kind.External?
  {
  }

  /** The filament's preset is known and is the slot's. */
  predicate SamePreset(filament: ProjectFilament, slot: PrinterAmsSlot) {
    filament.trayInfoIdx.Some? && filament.trayInfoIdx.value != "" && filament.trayInfoIdx == slot.filamentId
  }

  function PairDistance(palette: Palette, filament: ProjectFilament, slot: PrinterAmsSlot): real {
    var color := palette.colorDistance(filament.color, slot.color);
    (if color.Some? then color.value else 10000.0)
    + (if SamePreset(filament, slot) then 0.0 else 1000.0)
    + (if slot.kind.External? then 20000.0 else 0.0)
  }

  /** Colour distances as the printer palette gives them: below one preset penalty. */
  ghost predicate BoundedDistances(palette: Palette) {
    forall a, b :: palette.colorDistance(a, b).Some? ==> 0.0 <= palette.colorDistance(a, b).value < 1000.0
  }

  /** What a pairing is ranked by: AMS first, then known colours, then the same preset, then nearness. */
  datatype Rank = Rank(external: bool, colorUnknown: bool, otherPreset: bool, nearness: real)

  ghost function RankOf(palette: Palette, filament: ProjectFilament, slot: PrinterAmsSlot): Rank {
    var color := palette.colorDistance(filament.color, slot.color);
    var samePreset := exists preset :: preset != "" && filament.trayInfoIdx == Some(preset) == slot.filamentId;
    Rank(slot.kind.External?, color.None?, !samePreset, if color.Some? then color.value else 0.0)
  }

  predicate Precedes(a: Rank, b: Rank) {
    if a.external != b.external then b.external
    else if a.colorUnknown != b.colorUnknown then b.colorUnknown
    else if a.otherPreset != b.otherPreset then b.otherPreset
    else a.nearness < b.nearness
  }

  /** The single distance number ranks pairings exactly lexicographically. */
  lemma DistanceIsLexicographic(
    palette: Palette, f: ProjectFilament, a: PrinterAmsSlot, g: ProjectFilament, b: PrinterAmsSlot)
    requires BoundedDistances(palette)
    ensures PairDistance(palette, f, a) < PairDistance(palette, g, b) <==>
            Precedes(RankOf(palette, f, a), RankOf(palette, g, b))
  {
    assert palette.colorDistance(f.color, a.color).Some? ==>
             0.0 <= palette.colorDistance(f.color, a.color).value < 1000.0;
    assert palette.colorDistance(g.color, b.color).Some? ==>
             0.0 <= palette.colorDistance(g.color, b.color).value < 1000.0;
  }

  function ToPair(palette: Palette, filament: ProjectFilament, slot: PrinterAmsSlot): Pair {
    Pair(filament.mappingIndex, slot.key, PairDistance(palette, filament, slot))
  }

  /** The pairs of one filament with the slots from position `from` on. */
  function FilamentPairs(
    palette: Palette, filament: ProjectFilament, slots: seq<PrinterAmsSlot>, useAms: bool, from: nat): seq<Pair>
    requires from <= |slots|
    decreases |slots| - from
  {
    if from == |slots| then []
    else (if Compatible(palette, filament, slots[from], slots, useAms)
          then [ToPair(palette, filament, slots[from])] else [])
         + FilamentPairs(palette, filament, slots, useAms, from + 1)
  }

  function UnsortedPairs(
    palette: Palette, filaments: seq<ProjectFilament>, slots: seq<PrinterAmsSlot>, useAms: bool): seq<Pair>
  {
    if filaments == [] then []
    else FilamentPairs(palette, filaments[0], slots, useAms, 0) + UnsortedPairs(palette, filaments[1..], slots, useAms)
  }

  /** The comparator: distance, then filament index, then slot key. */
  predicate PairLe(palette: Palette, left: Pair, right: Pair) {
    || left.distance < right.distance
    || (left.distance == right.distance
        && (|| left.mappingIndex < right.mappingIndex
            || (left.mappingIndex == right.mappingIndex && palette.keyLe(left.slotKey, right.slotKey))))
  }

  function Insert(palette: Palette, pair: Pair, sorted: seq<Pair>): seq<Pair> {
    if sorted == [] || PairLe(palette, pair, sorted[0]) then [pair] + sorted
    else [sorted[0]] + Insert(palette, pair, sorted[1..])
  }

  /** A stable sort: an element goes in front of the later elements it ties with. */
  function Sort(palette: Palette, pairs: seq<Pair>): seq<Pair> {
    if pairs == [] then [] else Insert(palette, pairs[0], Sort(palette, pairs[1..]))
  }

  function CompatiblePairs(
    palette: Palette, filaments: seq<ProjectFilament>, slots: seq<PrinterAmsSlot>, useAms: bool): seq<Pair>
  {
    Sort(palette, UnsortedPairs(palette, filaments, slots, useAms))
  }

  predicate Sorted(palette: Palette, pairs: seq<Pair>) {
    forall i, j | 0 <= i < j < |pairs| :: PairLe(palette, pairs[i], pairs[j])
  }

  lemma {:induction false} InsertPermutes(palette: Palette, pair: Pair, sorted: seq<Pair>)
    ensures multiset(Insert(palette, pair, sorted)) == multiset(sorted) + multiset{pair}
  {
    if sorted != [] {
      assert sorted == [sorted[0]] + sorted[1..];
      if !PairLe(palette, pair, sorted[0]) {
        InsertPermutes(palette, pair, sorted[1..]);
      }
    }
  }

  lemma {:induction false} InsertSorts(palette: Palette, pair: Pair, sorted: seq<Pair>)
    requires OrdersKeys(palette) && Sorted(palette, sorted)
    ensures Sorted(palette, Insert(palette, pair, sorted))
  {
    if sorted != [] && !PairLe(palette, pair, sorted[0]) {
      InsertSorts(palette, pair, sorted[1..]);
      InsertPermutes(palette, pair, sorted[1..]);
      var rest := Insert(palette, pair, sorted[1..]);
      forall k | 0 <= k < |rest|
        ensures PairLe(palette, sorted[0], rest[k])
      {
        assert rest[k] in multiset(rest);
        assert rest[k] == pair || rest[k] in multiset(sorted[1..]);
      }
    }
  }

  lemma {:induction false} SortPermutes(palette: Palette, pairs: seq<Pair>)
    ensures multiset(Sort(palette, pairs)) == multiset(pairs)
  {
    if pairs != [] {
      SortPermutes(palette, pairs[1..]);
      InsertPermutes(palette, pairs[0], Sort(palette, pairs[1..]));
      assert pairs == [pairs[0]] + pairs[1..];
    }
  }

  lemma {:induction false} SortSorts(palette: Palette, pairs: seq<Pair>)
    requires OrdersKeys(palette)
    ensures Sorted(palette, Sort(palette, pairs))
  {
    if pairs != [] {
      SortSorts(palette, pairs[1..]);
      InsertSorts(palette, pairs[0], Sort(palette, pairs[1..]));
    }
  }

  /** Neither of two pairs goes in front of the other. */
  predicate Tied(palette: Palette, a: Pair, b: Pair) {
    PairLe(palette, a, b) && PairLe(palette, b, a)
  }

  /** The pairs tied with `x`, in order. */
  function TiedWith(palette: Palette, pairs: seq<Pair>, x: Pair): seq<Pair> {
    if pairs == [] then []
    else (if Tied(palette, pairs[0], x) then [pairs[0]] else []) + TiedWith(palette, pairs[1..], x)
  }

  lemma {:induction false} InsertIsStable(palette: Palette, pair: Pair, sorted: seq<Pair>, x: Pair)
    requires OrdersKeys(palette)
    ensures TiedWith(palette, Insert(palette, pair, sorted), x) == TiedWith(palette, [pair] + sorted, x)
  {
    assert ([pair] + sorted)[1..] == sorted;
    if sorted != [] && !PairLe(palette, pair, sorted[0]) {
      InsertIsStable(palette, pair, sorted[1..], x);
      var rest := Insert(palette, pair, sorted[1..]);
      assert ([pair] + sorted[1..])[1..] == sorted[1..];
      assert ([sorted[0]] + rest)[1..] == rest;
      assert !(Tied(palette, pair, x) && Tied(palette, sorted[0], x));
    }
  }

  /** The sort is stable: pairs that tie keep the order of filaments and slots. */
  lemma {:induction false} SortIsStable(palette: Palette, pairs: seq<Pair>, x: Pair)
    requires OrdersKeys(palette)
    ensures TiedWith(palette, Sort(palette, pairs), x) == TiedWith(palette, pairs, x)
  {
    if pairs != [] {
      SortIsStable(palette, pairs[1..], x);
      var sorted := Sort(palette, pairs[1..]);
      InsertIsStable(palette, pairs[0], sorted, x);
      assert ([pairs[0]] + sorted)[1..] == sorted;
    }
  }

  lemma {:induction false} FilamentPairsAreCompatible(
    palette: Palette, filament: ProjectFilament, slots: seq<PrinterAmsSlot>, useAms: bool, from: nat, x: Pair)
    requires from <= |slots|
    ensures x in FilamentPairs(palette, filament, slots, useAms, from) <==>
            exists j | from <= j < |slots| ::
              Compatible(palette, filament, slots[j], slots, useAms) && x == ToPair(palette, filament, slots[j])
    decreases |slots| - from
  {
    if from < |slots| {
      FilamentPairsAreCompatible(palette, filament, slots, useAms, from + 1, x);
    }
  }

  /** Filament `i` and slot `j` are compatible and `x` is the pair they give. */
  predicate PairOf(
    palette: Palette, filaments: seq<ProjectFilament>, slots: seq<PrinterAmsSlot>, useAms: bool,
    i: nat, j: nat, x: Pair)
    requires i < |filaments| && j < |slots|
  {
    Compatible(palette, filaments[i], slots[j], slots, useAms) && x == ToPair(palette, filaments[i], slots[j])
  }

  lemma {:induction false} UnsortedPairsAreCompatible(
    palette: Palette, filaments: seq<ProjectFilament>, slots: seq<PrinterAmsSlot>, useAms: bool, x: Pair)
    ensures x in UnsortedPairs(palette, filaments, slots, useAms) <==>
            exists i: nat, j: nat | i < |filaments| && j < |slots| :: PairOf(palette, filaments, slots, useAms, i, j, x)
  {
    if filaments != [] {
      var rest := filaments[1..];
      UnsortedPairsAreCompatible(palette, rest, slots, useAms, x);
      FilamentPairsAreCompatible(palette, filaments[0], slots, useAms, 0, x);
      if x in FilamentPairs(palette, filaments[0], slots, useAms, 0) {
        var j: nat :| j < |slots| && Compatible(palette, filaments[0], slots[j], slots, useAms)
                      && x == ToPair(palette, filaments[0], slots[j]);
        assert PairOf(palette, filaments, slots, useAms, 0, j, x);
      }
      if x in UnsortedPairs(palette, rest, slots, useAms) {
        var i: nat, j: nat :| i < |rest| && j < |slots| && PairOf(palette, rest, slots, useAms, i, j, x);
        assert PairOf(palette, filaments, slots, useAms, i + 1, j, x);
      }
      if i: nat, j: nat :| i < |filaments| && j < |slots| && PairOf(palette, filaments, slots, useAms, i, j, x) {
        if i > 0 {
          assert PairOf(palette, rest, slots, useAms, i - 1, j, x);
        }
      }
    }
  }

  /** The sorted list holds a pair exactly for each compatible filament and slot. */
  lemma CompatiblePairsAreCompatible(
    palette: Palette, filaments: seq<ProjectFilament>, slots: seq<PrinterAmsSlot>, useAms: bool, x: Pair)
    ensures x in CompatiblePairs(palette, filaments, slots, useAms) <==>
            exists i: nat, j: nat | i < |filaments| && j < |slots| :: PairOf(palette, filaments, slots, useAms, i, j, x)
  {
    var unsorted := UnsortedPairs(palette, filaments, slots, useAms);
    SortPermutes(palette, unsorted);
    assert x in unsorted <==> x in multiset(unsorted);
    assert x in Sort(palette, unsorted) <==> x in multiset(Sort(palette, unsorted));
    UnsortedPairsAreCompatible(palette, filaments, slots, useAms, x);
  }

  // ----- The greedy pass -----

  /** Pair `k` is taken: no earlier taken pair uses its filament or its slot. */
  ghost predicate Taken(pairs: seq<Pair>, k: nat)
    requires k < |pairs|
    decreases k
  {
    forall j: nat | j < k && Taken(pairs, j) :: !Conflict(pairs[j], pairs[k])
  }

  predicate Conflict(a: Pair, b: Pair) {
    a.mappingIndex == b.mappingIndex || a.slotKey == b.slotKey
  }

  /** The slot each filament gets from the first `n` pairs. */
  ghost function Greedy(pairs: seq<Pair>, n: nat): Selections
    requires n <= |pairs|
  {
    if n == 0 then map[]
    else if Taken(pairs, n - 1) then Greedy(pairs, n - 1)[pairs[n - 1].mappingIndex := pairs[n - 1].slotKey]
    else Greedy(pairs, n - 1)
  }

  /** The first `n` pairs give filament `i` the slot `key`, by a taken pair. */
  ghost predicate Gives(pairs: seq<Pair>, n: nat, i: nat, key: string)
    requires n <= |pairs|
  {
    exists k: nat | k < n :: Taken(pairs, k) && pairs[k].mappingIndex == i && pairs[k].slotKey == key
  }

  lemma {:induction false} GreedyIsTaken(pairs: seq<Pair>, n: nat)
    requires n <= |pairs|
    ensures forall i, key :: (i in Greedy(pairs, n) && Greedy(pairs, n)[i] == key) <==> Gives(pairs, n, i, key)
  {
    if n > 0 {
      GreedyIsTaken(pairs, n - 1);
      var before, now := Greedy(pairs, n - 1), Greedy(pairs, n);
      var p := pairs[n - 1];
      forall i, key
        ensures (i in now && now[i] == key) <==> Gives(pairs, n, i, key)
      {
        assert Gives(pairs, n - 1, i, key) ==> Gives(pairs, n, i, key);
        if i in now && now[i] == key {
          if Taken(pairs, n - 1) && i == p.mappingIndex {
            assert Gives(pairs, n, i, key);
          } else {
            assert Gives(pairs, n - 1, i, key);
          }
        }
        if Gives(pairs, n, i, key) && !Gives(pairs, n - 1, i, key) {
          assert Taken(pairs, n - 1) && p.mappingIndex == i && p.slotKey == key;
        } else if Gives(pairs, n - 1, i, key) && Taken(pairs, n - 1) {
          assert i != p.mappingIndex;
        }
      }
    }
  }

  /** Whether pair `k` is taken can be read off the filaments and slots used before it. */
  lemma TakenIsUnused(pairs: seq<Pair>, k: nat)
    requires k < |pairs|
    ensures Taken(pairs, k) <==>
            pairs[k].mappingIndex !in Greedy(pairs, k) && pairs[k].slotKey !in Greedy(pairs, k).Values
  {
    var g := Greedy(pairs, k);
    GreedyIsTaken(pairs, k);
    if !Taken(pairs, k) {
      var j: nat :| j < k && Taken(pairs, j) && Conflict(pairs[j], pairs[k]);
      assert Gives(pairs, k, pairs[j].mappingIndex, pairs[j].slotKey);
      assert pairs[j].slotKey in g.Values;
    }
    if pairs[k].mappingIndex in g {
      assert Gives(pairs, k, pairs[k].mappingIndex, g[pairs[k].mappingIndex]);
    }
    if pairs[k].slotKey in g.Values {
      var i :| i in g && g[i] == pairs[k].slotKey;
      assert Gives(pairs, k, i, g[i]);
    }
  }

  function FirstPair(pairs: seq<Pair>, i: nat): Option<Pair> {
    if pairs == [] then None
    else if pairs[0].mappingIndex == i then Some(pairs[0])
    else FirstPair(pairs[1..], i)
  }

  lemma {:induction false} FirstPairIsFirst(pairs: seq<Pair>, i: nat)
    ensures FirstPair(pairs, i).None? <==> forall k | 0 <= k < |pairs| :: pairs[k].mappingIndex != i
    ensures FirstPair(pairs, i).Some? ==>
              exists k | 0 <= k < |pairs| ::
                && pairs[k] == FirstPair(pairs, i).value && pairs[k].mappingIndex == i
                && forall j | 0 <= j < k :: pairs[j].mappingIndex != i
  {
    if pairs != [] {
      FirstPairIsFirst(pairs[1..], i);
      assert forall k | 1 <= k < |pairs| :: pairs[k] == pairs[1..][k - 1];
      if pairs[0].mappingIndex != i && FirstPair(pairs[1..], i).Some? {
        var k :| 0 <= k < |pairs[1..]| && pairs[1..][k] == FirstPair(pairs[1..], i).value
                 && pairs[1..][k].mappingIndex == i
                 && forall j | 0 <= j < k :: pairs[1..][j].mappingIndex != i;
        assert pairs[k + 1] == FirstPair(pairs, i).value;
        forall j | 0 <= j < k + 1
          ensures pairs[j].mappingIndex != i
        {
          assert j > 0 ==> pairs[j] == pairs[1..][j - 1];
        }
      }
    }
  }

  lemma {:induction false} FirstPairOfPrefix(pairs: seq<Pair>, n: nat, i: nat)
    requires n < |pairs|
    ensures FirstPair(pairs[..n + 1], i) ==
            if FirstPair(pairs[..n], i).Some? then FirstPair(pairs[..n], i)
            else if pairs[n].mappingIndex == i then Some(pairs[n]) else None
  {
    if n == 0 {
      assert pairs[..1][1..] == [];
    } else {
      assert pairs[..n + 1][1..] == pairs[1..][..n] && pairs[..n][1..] == pairs[1..][..n - 1];
      FirstPairOfPrefix(pairs[1..], n - 1, i);
    }
  }

  ghost function PairIndices(pairs: seq<Pair>): set<nat> {
    set k | 0 <= k < |pairs| :: pairs[k].mappingIndex
  }

  /** The matched slot of a filament, or its best compatible slot when every one was taken. */
  ghost function SelectedFor(pairs: seq<Pair>, i: nat): string
    requires i in PairIndices(pairs)
  {
    FirstPairIsFirst(pairs, i);
    var g := Greedy(pairs, |pairs|);
    if i in g then g[i] else FirstPair(pairs, i).value.slotKey
  }

  ghost function AutoSelections(pairs: seq<Pair>): Selections {
    map i | i in PairIndices(pairs) :: SelectedFor(pairs, i)
  }

  predicate PairsWithin(pairs: seq<Pair>, filaments: seq<ProjectFilament>, slots: seq<PrinterAmsSlot>) {
    forall k | 0 <= k < |pairs| ::
      && (exists i | 0 <= i < |filaments| :: filaments[i].mappingIndex == pairs[k].mappingIndex)
      && (exists j | 0 <= j < |slots| :: slots[j].key == pairs[k].slotKey)
  }

  lemma CompatiblePairsWithin(
    palette: Palette, filaments: seq<ProjectFilament>, slots: seq<PrinterAmsSlot>, useAms: bool)
    ensures PairsWithin(CompatiblePairs(palette, filaments, slots, useAms), filaments, slots)
  {
    var pairs := CompatiblePairs(palette, filaments, slots, useAms);
    forall k | 0 <= k < |pairs|
      ensures exists i | 0 <= i < |filaments| :: filaments[i].mappingIndex == pairs[k].mappingIndex
      ensures exists j | 0 <= j < |slots| :: slots[j].key == pairs[k].slotKey
    {
      CompatiblePairsAreCompatible(palette, filaments, slots, useAms, pairs[k]);
      var i: nat, j: nat :| i < |filaments| && j < |slots| && PairOf(palette, filaments, slots, useAms, i, j, pairs[k]);
      assert filaments[i].mappingIndex == pairs[k].mappingIndex && slots[j].key == pairs[k].slotKey;
    }
  }

  /** The first loop of `autoMapSlotSelections`: the two shrinking sets compute `Greedy`. */
  method GreedyPass(pairs: seq<Pair>, filaments: set<nat>, slots: set<string>)
    returns (selections: Selections, remaining: set<nat>, firstPairByFilament: map<nat, Pair>)
    requires forall k | 0 <= k < |pairs| :: pairs[k].mappingIndex in filaments && pairs[k].slotKey in slots
    ensures selections == Greedy(pairs, |pairs|)
    ensures remaining == filaments - selections.Keys
    ensures forall i ::
              FirstPair(pairs, i) == if i in firstPairByFilament then Some(firstPairByFilament[i]) else None
  {
    selections, firstPairByFilament := map[], map[];
    remaining := filaments;
    var remainingSlots := slots;
    for n := 0 to |pairs|
      invariant selections == Greedy(pairs, n)
      invariant remaining == filaments - selections.Keys
      invariant remainingSlots == slots - selections.Values
      invariant forall i ::
                  FirstPair(pairs[..n], i) == if i in firstPairByFilament then Some(firstPairByFilament[i]) else None
    {
      var pair := pairs[n];
      TakenIsUnused(pairs, n);
      forall i { FirstPairOfPrefix(pairs, n, i); }
      if pair.mappingIndex !in firstPairByFilament {
        firstPairByFilament := firstPairByFilament[pair.mappingIndex := pair];
      }
      if pair.mappingIndex in remaining && pair.slotKey in remainingSlots {
        MapInsertValues(selections, pair.mappingIndex, pair.slotKey);
        selections := selections[pair.mappingIndex := pair.slotKey];
        remaining := remaining - {pair.mappingIndex};
        remainingSlots := remainingSlots - {pair.slotKey};
      }
    }
    assert pairs[..|pairs|] == pairs;
  }

  /** The second loop: every filament left over shares the slot of its first pair, if it has one. */
  method ShareFirstPairs(matched: Selections, remaining: set<nat>, firstPairByFilament: map<nat, Pair>)
    returns (selections: Selections)
    requires remaining !! matched.Keys
    ensures forall i :: i in selections <==> i in matched || (i in remaining && i in firstPairByFilament)
    ensures forall i | i in selections ::
              selections[i] == if i in matched then matched[i] else firstPairByFilament[i].slotKey
  {
    selections := matched;
    var rest := remaining;
    while rest != {}
      invariant rest <= remaining
      invariant forall i :: i in selections <==> i in matched || (i in remaining - rest && i in firstPairByFilament)
      invariant forall i | i in selections ::
                  selections[i] == if i in matched then matched[i] else firstPairByFilament[i].slotKey
      decreases rest
    {
      var mappingIndex :| mappingIndex in rest;
      rest := rest - {mappingIndex};
      if mappingIndex in firstPairByFilament {
        selections := selections[mappingIndex := firstPairByFilament[mappingIndex].slotKey];
      }
    }
  }

  /** `autoMapSlotSelections`. */
  method AutoMapSlotSelections(
    palette: Palette, filaments: seq<ProjectFilament>, slots: seq<PrinterAmsSlot>, useAms: bool)
    returns (selections: Selections)
    ensures selections == AutoSelections(CompatiblePairs(palette, filaments, slots, useAms))
  {
    var pairs := CompatiblePairs(palette, filaments, slots, useAms);
    CompatiblePairsWithin(palette, filaments, slots, useAms);
    var indices := set i | 0 <= i < |filaments| :: filaments[i].mappingIndex;
    var matched, remaining, firstPairByFilament :=
      GreedyPass(pairs, indices, set j | 0 <= j < |slots| :: slots[j].key);
    selections := ShareFirstPairs(matched, remaining, firstPairByFilament);
    SelectionsComplete(pairs, indices, selections);
  }

  lemma MapInsertValues(m: Selections, i: nat, key: string)
    requires i !in m
    ensures m[i := key].Values == m.Values + {key}
  {
    var m' := m[i := key];
    assert m'[i] == key;
    forall v | v in m.Values
      ensures v in m'.Values
    {
      var j :| j in m && m[j] == v;
      assert m'[j] == v;
    }
  }

  lemma SelectionsComplete(pairs: seq<Pair>, filaments: set<nat>, selections: Selections)
    requires PairIndices(pairs) <= filaments
    requires forall i :: i in selections <==>
                           i in Greedy(pairs, |pairs|) || (i in filaments && FirstPair(pairs, i).Some?)
    requires forall i | i in selections && i in Greedy(pairs, |pairs|) :: selections[i] == Greedy(pairs, |pairs|)[i]
    requires forall i | i in selections && i !in Greedy(pairs, |pairs|) ::
               FirstPair(pairs, i).Some? && selections[i] == FirstPair(pairs, i).value.slotKey
    ensures selections == AutoSelections(pairs)
  {
    var g := Greedy(pairs, |pairs|);
    forall i
      ensures i in selections <==> i in PairIndices(pairs)
      ensures i in selections ==> selections[i] == SelectedFor(pairs, i)
    {
      FirstPairIsFirst(pairs, i);
      if i in g {
        GreedyIsTaken(pairs, |pairs|);
        assert Gives(pairs, |pairs|, i, g[i]);
      }
    }
  }
}

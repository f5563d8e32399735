/**
 The coordinator of frontend/app/printer-mismatch-dialog.tsx: which plate mismatch is
 shown, and which have been shown already. Occurrences are the keys of the printers that
 report one, in list order; each step sees the list of its own render.
*/
module MismatchDialog {
  import opened Basics

  type Key = string

  /** `shown` lists the keys the coordinator selected on its own, in order. */
  datatype State = State(seen: set<Key>, selected: Option<Key>, shown: seq<Key>)

  datatype Event =
    | EffectRuns(occurrences: seq<Key>)
    | Dismissed(key: Key, occurrences: seq<Key>)
    | OpenedByHand(key: Key, occurrences: seq<Key>)

  function FirstUnopened(occurrences: seq<Key>, seen: set<Key>): Option<Key> {
    if occurrences == [] then None
    else if occurrences[0] !in seen then Some(occurrences[0])
    else FirstUnopened(occurrences[1..], seen)
  }

  lemma {:induction false} FirstUnopenedIsFirst(occurrences: seq<Key>, seen: set<Key>)
    ensures var next := FirstUnopened(occurrences, seen);
            && (next.None? <==> forall i | 0 <= i < |occurrences| :: occurrences[i] in seen)
            && (next.Some? ==> next.value !in seen && exists i | 0 <= i < |occurrences| ::
                  occurrences[i] == next.value && forall j | 0 <= j < i :: occurrences[j] in seen)
  {
    if occurrences != [] {
      FirstUnopenedIsFirst(occurrences[1..], seen);
      assert forall i | 1 <= i < |occurrences| :: occurrences[i] == occurrences[1..][i - 1];
      if occurrences[0] in seen && FirstUnopened(occurrences, seen).Some? {
        var i :| 0 <= i < |occurrences[1..]| && occurrences[1..][i] == FirstUnopened(occurrences, seen).value
                 && forall j | 0 <= j < i :: occurrences[1..][j] in seen;
        assert occurrences[i + 1] == FirstUnopened(occurrences, seen).value;
        forall j | 0 <= j < i + 1
          ensures occurrences[j] in seen
        {
          assert j > 0 ==> occurrences[j] == occurrences[1..][j - 1];
        }
      }
    }
  }

  /** Selecting the first occurrence not seen yet, or nothing. */
  function SelectNext(s: State, occurrences: seq<Key>): State {
    var next := FirstUnopened(occurrences, s.seen);
    if next.Some? then State(s.seen + {next.value}, next, s.shown + [next.value])
    else s.(selected := None)
  }

  predicate StillCurrent(s: State, occurrences: seq<Key>) {
    s.selected.Some? && s.selected.value != "" && s.selected.value in occurrences
  }

  function Step(s: State, event: Event): State {
    match event
    case EffectRuns(occurrences) =>
      if StillCurrent(s, occurrences) then s else SelectNext(s, occurrences)
    case Dismissed(key, occurrences) =>
      SelectNext(s.(seen := s.seen + {key}), occurrences)
    case OpenedByHand(key, occurrences) =>
      if key in occurrences then s.(seen := s.seen + {key}, selected := Some(key)) else s
  }

  function Run(events: seq<Event>): State {
    if events == [] then State({}, None, [])
    else Step(Run(events[..|events| - 1]), events[|events| - 1])
  }

  // ----- The coordinator as the object it is -----

  class Coordinator {
    var seen: set<Key>
    var selectedKey: Option<Key>
    ghost var shown: seq<Key>

    ghost function Now(): State
      reads this
    {
      State(seen, selectedKey, shown)
    }

    constructor ()
      ensures Now() == Run([])
    {
      seen, selectedKey, shown := {}, None, [];
    }

    /** `occurrences.find` of a key other than `skip` that has not been seen. */
    method Find(occurrences: seq<Key>, skip: Option<Key>) returns (next: Option<Key>)
      requires skip.Some? ==> skip.value in seen
      ensures next == FirstUnopened(occurrences, seen)
    {
      next := None;
      for i := 0 to |occurrences|
        invariant FirstUnopened(occurrences, seen) == FirstUnopened(occurrences[i..], seen)
      {
        assert occurrences[i..][1..] == occurrences[i + 1..];
        if Some(occurrences[i]) != skip && occurrences[i] !in seen {
          return Some(occurrences[i]);
        }
      }
    }

    method Select(next: Option<Key>)
      modifies this
      ensures selectedKey == next
      ensures seen == old(seen) + if next.Some? then {next.value} else {}
      ensures shown == old(shown) + if next.Some? then [next.value] else []
    {
      if next.Some? {
        seen := seen + {next.value};
        shown := shown + [next.value];
      }
      selectedKey := next;
    }

    method Effect(occurrences: seq<Key>)
      modifies this
      ensures Now() == Step(old(Now()), EffectRuns(occurrences))
    {
      if selectedKey.Some? && selectedKey.value != "" && selectedKey.value in occurrences {
        return;
      }
      var next := Find(occurrences, None);
      Select(next);
    }

    method Dismiss(key: Key, occurrences: seq<Key>)
      modifies this
      ensures Now() == Step(old(Now()), Dismissed(key, occurrences))
    {
      seen := seen + {key};
      var next := Find(occurrences, Some(key));
      Select(next);
    }

    method Open(key: Key, occurrences: seq<Key>)
      modifies this
      ensures Now() == Step(old(Now()), OpenedByHand(key, occurrences))
    {
      if key in occurrences {
        seen := seen + {key};
        selectedKey := Some(key);
      }
    }
  }

  // ----- Every run -----

  ghost predicate Inv(s: State) {
    && (forall i, j | 0 <= i < j < |s.shown| :: s.shown[i] != s.shown[j])
    && (forall i | 0 <= i < |s.shown| :: s.shown[i] in s.seen)
    && (s.selected.Some? ==> s.selected.value in s.seen)
  }

  lemma StepKeeps(s: State, event: Event)
    requires Inv(s)
    ensures Inv(Step(s, event)) && s.seen <= Step(s, event).seen
  {
    match event
    case EffectRuns(occurrences) => FirstUnopenedIsFirst(occurrences, s.seen);
    case Dismissed(key, occurrences) => FirstUnopenedIsFirst(occurrences, s.seen + {key});
    case OpenedByHand(key, occurrences) =>
  }

  lemma {:induction false} RunKeeps(events: seq<Event>)
    ensures Inv(Run(events))
  {
    if events != [] {
      RunKeeps(events[..|events| - 1]);
      StepKeeps(Run(events[..|events| - 1]), events[|events| - 1]);
    }
  }

  /** In every run each key is shown automatically at most once, and a selected key is recorded. */
  lemma ShownAtMostOnce(events: seq<Event>)
    ensures var s := Run(events);
            && (forall i, j | 0 <= i < j < |s.shown| :: s.shown[i] != s.shown[j])
            && (s.selected.Some? ==> s.selected.value in s.seen)
  {
    RunKeeps(events);
  }

  /** When the effect or a dismissal leaves the dialog closed, nothing current is left unseen. */
  lemma ClosedMeansAllSeen(events: seq<Event>, event: Event)
    requires event.EffectRuns? || event.Dismissed?
    requires Run(events + [event]).selected.None?
    ensures forall i | 0 <= i < |event.occurrences| :: event.occurrences[i] in Run(events + [event]).seen
  {
    var s := Run(events);
    assert (events + [event])[..|events + [event]| - 1] == events;
    FirstUnopenedIsFirst(event.occurrences, s.seen);
    if event.Dismissed? {
      FirstUnopenedIsFirst(event.occurrences, s.seen + {event.key});
    }
  }

  /** Opening by hand shows the occurrence and records it; a key without an occurrence is ignored. */
  lemma OpenShowsKey(events: seq<Event>, key: Key, occurrences: seq<Key>)
    ensures var s, t := Run(events), Run(events + [OpenedByHand(key, occurrences)]);
            if key in occurrences then t.selected == Some(key) && t.seen == s.seen + {key} && t.shown == s.shown
            else t == s
  {
    RunOneMore(events, OpenedByHand(key, occurrences));
  }

  lemma RunOneMore(events: seq<Event>, event: Event)
    ensures Run(events + [event]) == Step(Run(events), event)
  {
    assert (events + [event])[..|events + [event]| - 1] == events;
  }

  /** What is shown while it is current stays, whatever else is reported. */
  lemma EffectKeepsCurrent(events: seq<Event>, key: Key, occurrences: seq<Key>)
    requires Run(events).selected == Some(key) && key != "" && key in occurrences
    ensures Run(events + [EffectRuns(occurrences)]) == Run(events)
  {
    RunOneMore(events, EffectRuns(occurrences));
  }

  /** `key` is the first occurrence not in `seen`. */
  ghost predicate IsNext(occurrences: seq<Key>, seen: set<Key>, key: Key) {
    exists i | 0 <= i < |occurrences| ::
      occurrences[i] == key && key !in seen && forall j | 0 <= j < i :: occurrences[j] in seen
  }

  /** A dismissal records its key and goes on to the first occurrence not seen, never the dismissed one. */
  lemma DismissalMovesOn(events: seq<Event>, key: Key, occurrences: seq<Key>)
    ensures var s, t := Run(events), Run(events + [Dismissed(key, occurrences)]);
            && key in t.seen && t.selected != Some(key)
            && (t.selected.Some? ==> IsNext(occurrences, s.seen + {key}, t.selected.value))
            && (t.selected.None? ==> forall k | k in occurrences :: k in s.seen + {key})
  {
    RunOneMore(events, Dismissed(key, occurrences));
    FirstUnopenedIsFirst(occurrences, Run(events).seen + {key});
  }

  /** When nothing current is shown the effect shows the first occurrence not seen, if there is one. */
  lemma EffectShowsNext(events: seq<Event>, occurrences: seq<Key>)
    requires forall key | Run(events).selected == Some(key) :: key == "" || key !in occurrences
    ensures var s, t := Run(events), Run(events + [EffectRuns(occurrences)]);
            && (t.selected.Some? ==> IsNext(occurrences, s.seen, t.selected.value) && t.selected.value in t.seen)
            && (t.selected.None? ==> forall k | k in occurrences :: k in s.seen)
  {
    RunOneMore(events, EffectRuns(occurrences));
    FirstUnopenedIsFirst(occurrences, Run(events).seen);
  }

  ghost function Unopened(seen: set<Key>, occurrences: seq<Key>): set<Key> {
    (set i | 0 <= i < |occurrences| :: occurrences[i]) - seen
  }

  /** Every automatic selection leaves strictly fewer unopened occurrences. */
  lemma SelectionConsumes(events: seq<Event>, event: Event)
    requires Run(events + [event]).shown != Run(events).shown
    ensures |Unopened(Run(events + [event]).seen, event.occurrences)| < |Unopened(Run(events).seen, event.occurrences)|
  {
    var s, t := Run(events), Run(events + [event]);
    assert (events + [event])[..|events + [event]| - 1] == events;
    var seen := if event.Dismissed? then s.seen + {event.key} else s.seen;
    FirstUnopenedIsFirst(event.occurrences, seen);
    var next := FirstUnopened(event.occurrences, seen).value;
    var before, after := Unopened(s.seen, event.occurrences), Unopened(t.seen, event.occurrences);
    assert after <= before - {next} && next in before;
    assert before - {next} == after + (before - {next} - after);
  }
}

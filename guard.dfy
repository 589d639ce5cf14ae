/**
 * The no-class-loading mark as a machine over one flag: constructing a
 * mark asserts the flag is clear ("must not be nested") and sets it;
 * destroying a mark clears it unconditionally.
 */
module GuardModel {
  import opened Wrappers

  datatype MarkEvent = Construct | Destruct

  /** One event; None is the failed "must not be nested" assertion. */
  function Step(flag: bool, e: MarkEvent): (r: Option<bool>)
    ensures e == Construct ==> (r.None? <==> flag)
    ensures e == Destruct ==> r == Some(false)
    ensures r.Some? ==> r.value == (e == Construct)
  {
    match e
    case Construct => if flag then None else Some(true)
    case Destruct => Some(false)
  }

  /** A sequence of events from a starting flag; None once an assertion fails. */
  function Run(flag: bool, events: seq<MarkEvent>): Option<bool>
    decreases |events|
  {
    if events == [] then Some(flag)
    else match Step(flag, events[0])
      case None => None
      case Some(f) => Run(f, events[1..])
  }

  /** No mark is constructed while another is live: not the first event if
      the flag starts set, and never right after another construction. */
  predicate NotNested(flag: bool, events: seq<MarkEvent>)
  {
    && (|events| > 0 && events[0] == Construct ==> !flag)
    && forall i :: 0 < i < |events| && events[i] == Construct ==> events[i - 1] == Destruct
  }

  /**
   * A sequence of marks runs without the assertion firing exactly when no
   * mark is nested, and then the flag is set exactly when the last event
   * constructed a mark.
   */
  lemma {:induction false} RunAcceptsExactlyUnnested(flag: bool, events: seq<MarkEvent>)
    ensures Run(flag, events).Some? <==> NotNested(flag, events)
    ensures Run(flag, events).Some? ==>
      Run(flag, events).value == (if events == [] then flag else events[|events| - 1] == Construct)
    decreases |events|
  {
    if events != [] {
      var e := events[0];
      if e == Construct && flag {
        assert !NotNested(flag, events);
      } else {
        var f := e == Construct;
        RunAcceptsExactlyUnnested(f, events[1..]);
        assert NotNested(flag, events) <==> NotNested(f, events[1..]) by {
          if NotNested(f, events[1..]) {
            forall i | 0 < i < |events| && events[i] == Construct
              ensures events[i - 1] == Destruct
            {
              if i == 1 {
                assert events[1..][0] == Construct;
              } else {
                assert events[1..][i - 1] == events[i];
              }
            }
          }
          if NotNested(flag, events) {
            var t := events[1..];
            forall i | 0 < i < |t| && t[i] == Construct ensures t[i - 1] == Destruct {
              assert t[i] == events[i + 1];
            }
          }
        }
      }
    }
  }

  /** A mark inside a live mark trips the assertion. */
  lemma NestedMarkIsRejected(before: seq<MarkEvent>, after: seq<MarkEvent>)
    ensures Run(false, before + [Construct, Construct] + after).None?
  {
    var events := before + [Construct, Construct] + after;
    RunAcceptsExactlyUnnested(false, events);
    assert events[|before| + 1] == Construct && events[|before|] == Construct;
  }

  /** Marks used one scope after another, starting clear, always end with
      the flag clear. */
  lemma {:induction false} SequentialScopesEndClear(n: nat)
    ensures Run(false, ScopedMarks(n)) == Some(false)
  {
    if n > 0 {
      SequentialScopesEndClear(n - 1);
      assert ScopedMarks(n)[1..] == [Destruct] + ScopedMarks(n - 1);
    }
  }

  /** n marks, each destroyed before the next is constructed. */
  function ScopedMarks(n: nat): (r: seq<MarkEvent>)
    ensures |r| == 2 * n
  {
    if n == 0 then [] else [Construct, Destruct] + ScopedMarks(n - 1)
  }
}

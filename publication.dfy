/**
 * The write-once publication rule of the shared protection-domain, jar-URL
 * and jar-manifest arrays, stated on the arrays' contents: a value is
 * written into a slot only while the slot is empty, so the first value
 * published wins and every later query sees it.
 */
module Publication {
  import opened Wrappers

  /** One publish: a compare-and-swap of o against an empty slot. */
  function Publish<T>(s: seq<Option<T>>, index: int, o: T): (r: seq<Option<T>>)
    requires 0 <= index < |s|
    ensures |r| == |s|
    ensures s[index].None? ==> r[index] == Some(o)
    ensures s[index].Some? ==> r[index] == s[index]
    ensures forall j :: 0 <= j < |s| && j != index ==> r[j] == s[j]
  {
    if s[index].None? then s[index := Some(o)] else s
  }

  /** A publish call: the slot index and the candidate value. */
  datatype PublishCall<T> = PublishCall(index: int, value: T)

  predicate InRange<T>(calls: seq<PublishCall<T>>, n: int)
  {
    forall i :: 0 <= i < |calls| ==> 0 <= calls[i].index < n
  }

  /** The calls applied one after another, in the order they took effect. */
  function PublishAll<T>(s: seq<Option<T>>, calls: seq<PublishCall<T>>): (r: seq<Option<T>>)
    requires InRange(calls, |s|)
    ensures |r| == |s|
    decreases |calls|
  {
    if calls == [] then s
    else PublishAll(Publish(s, calls[0].index, calls[0].value), calls[1..])
  }

  /** The value of the first call aimed at slot j, if any. */
  function FirstFor<T>(calls: seq<PublishCall<T>>, j: int): (r: Option<T>)
    ensures r.Some? ==> exists i :: 0 <= i < |calls| && calls[i].index == j && calls[i].value == r.value
    ensures r.None? <==> forall i :: 0 <= i < |calls| ==> calls[i].index != j
  {
    if calls == [] then None
    else if calls[0].index == j then Some(calls[0].value)
    else FirstFor(calls[1..], j)
  }

  /**
   * After any sequence of publishes, a slot that was already filled keeps
   * its value, and an empty slot holds the value of the first call aimed
   * at it (or stays empty if none was).
   */
  lemma {:induction false} FirstPublishWins<T>(s: seq<Option<T>>, calls: seq<PublishCall<T>>, j: int)
    requires InRange(calls, |s|)
    requires 0 <= j < |s|
    ensures PublishAll(s, calls)[j] == if s[j].Some? then s[j] else FirstFor(calls, j)
    decreases |calls|
  {
    if calls != [] {
      var s' := Publish(s, calls[0].index, calls[0].value);
      assert InRange(calls[1..], |s'|) by {
        forall i | 0 <= i < |calls[1..]| ensures 0 <= calls[1..][i].index < |s'| {
          assert calls[1..][i] == calls[i + 1];
        }
      }
      FirstPublishWins(s', calls[1..], j);
    }
  }

  /** FirstFor on a prefix, once it finds a call, agrees with FirstFor on
      the whole sequence. */
  lemma {:induction false} FirstForPrefix<T>(calls: seq<PublishCall<T>>, k: nat, j: int)
    requires k <= |calls|
    requires FirstFor(calls[..k], j).Some?
    ensures FirstFor(calls, j) == FirstFor(calls[..k], j)
  {
    if calls[0].index != j {
      assert calls[..k][1..] == calls[1..][..k - 1];
      FirstForPrefix(calls[1..], k - 1, j);
    }
  }

  /**
   * Readers converge: once a slot is filled after some prefix of the
   * calls, every later state holds the same value in it.
   */
  lemma FilledSlotNeverChanges<T>(s: seq<Option<T>>, calls: seq<PublishCall<T>>, k: nat, j: int)
    requires InRange(calls, |s|)
    requires k <= |calls| && 0 <= j < |s|
    requires InRange(calls[..k], |s|)
    requires PublishAll(s, calls[..k])[j].Some?
    ensures PublishAll(s, calls)[j] == PublishAll(s, calls[..k])[j]
  {
    FirstPublishWins(s, calls[..k], j);
    FirstPublishWins(s, calls, j);
    if s[j].None? {
      FirstForPrefix(calls, k, j);
    }
  }
}

/**
  The double-press gesture: press, wait 10ms, release, wait 10ms, press,
  wait 100ms, release. The keyboard is opaque; each press or release may
  fail, and the first failure ends the gesture with that error.
 */
module Trigger {
  import opened Wrappers

  datatype KeyOp = Press | Release

  /** One thing the gesture did: a key operation it attempted, or a sleep of some milliseconds. */
  datatype Action = Key(op: KeyOp) | Sleep(millis: nat)

  /** The error a key operation reports. */
  datatype KeyError = KeyError(code: int)

  /**
    The keyboard's behaviour during one gesture: the outcome of its k-th
    key operation (counting from 0), `None` for success.
   */
  type Keyboard = nat -> Option<KeyError>

  /** The full gesture when every key operation succeeds. */
  const DoublePress: seq<Action> :=
    [Key(Press), Sleep(10), Key(Release), Sleep(10), Key(Press), Sleep(100), Key(Release)]

  /** Number of key operations in the gesture. */
  const KeyOps: nat := 4

  /** Position in `DoublePress` of the k-th key operation. */
  function KeyPosition(k: nat): (i: nat)
    requires k < KeyOps
    ensures i < |DoublePress| && DoublePress[i].Key?
  {
    2 * k
  }

  /** The k-th key operation is the first one the keyboard rejects. */
  predicate FirstFailure(kb: Keyboard, k: nat) {
    k < KeyOps && kb(k).Some? && forall j :: 0 <= j < k ==> kb(j).None?
  }

  /**
    A trace and error a gesture against `kb` can end with: the full
    gesture and no error, or the gesture cut right after the first failing
    key operation, with that operation's error.
   */
  predicate GestureOutcome(kb: Keyboard, trace: seq<Action>, err: Option<KeyError>) {
    && (err.None? ==> trace == DoublePress)
    && ((forall k :: 0 <= k < KeyOps ==> kb(k).None?) ==> trace == DoublePress && err.None?)
    && (forall k :: 0 <= k < KeyOps && FirstFailure(kb, k) ==>
          trace == DoublePress[..KeyPosition(k) + 1] && err == kb(k))
  }

  /**
    Performs the gesture against `kb`, returning what it did and the
    error that stopped it. A failing operation is part of the trace (it
    was attempted); nothing after it is.
   */
  method SimulateDoubleCapsLock(kb: Keyboard) returns (trace: seq<Action>, err: Option<KeyError>)
    ensures (forall k :: 0 <= k < KeyOps ==> kb(k).None?) ==> trace == DoublePress && err == None
    ensures forall k :: FirstFailure(kb, k) ==> trace == DoublePress[..KeyPosition(k) + 1] && err == kb(k)
    ensures err.None? ==> trace == DoublePress
    ensures GestureOutcome(kb, trace, err)
  {
    trace := [Key(Press)];
    err := kb(0);
    if err.Some? {
      return;
    }
    trace := trace + [Sleep(10), Key(Release)];
    err := kb(1);
    if err.Some? {
      return;
    }
    trace := trace + [Sleep(10), Key(Press)];
    err := kb(2);
    if err.Some? {
      return;
    }
    trace := trace + [Sleep(100), Key(Release)];
    err := kb(3);
  }

  function TotalSleep(trace: seq<Action>): (ms: nat)
  {
    if trace == [] then 0
    else (if trace[0].Sleep? then trace[0].millis else 0) + TotalSleep(trace[1..])
  }

  /** The key operations of a trace, in order. */
  function KeysOf(trace: seq<Action>): seq<KeyOp>
  {
    if trace == [] then []
    else (if trace[0].Key? then [trace[0].op] else []) + KeysOf(trace[1..])
  }

  /** The successful gesture sleeps 120ms in all and presses, releases, presses, releases. */
  lemma DoublePressShape()
    ensures TotalSleep(DoublePress) == 120
    ensures KeysOf(DoublePress) == [Press, Release, Press, Release]
  {
  }

  /** Key operations and sleeps of a concatenation are those of its parts, in order. */
  lemma {:induction false} ShapeOfAppend(a: seq<Action>, b: seq<Action>)
    ensures KeysOf(a + b) == KeysOf(a) + KeysOf(b)
    ensures TotalSleep(a + b) == TotalSleep(a) + TotalSleep(b)
    decreases |a|
  {
    if a != [] {
      assert (a + b)[1..] == a[1..] + b;
      ShapeOfAppend(a[1..], b);
    } else {
      assert a + b == b;
    }
  }

  /** A wait followed by one key operation. */
  lemma StepShape(ms: nat, op: KeyOp)
    ensures KeysOf([Sleep(ms), Key(op)]) == [op]
    ensures TotalSleep([Sleep(ms), Key(op)]) == ms
  {
    var last := [Key(op)];
    assert [Sleep(ms), Key(op)][1..] == last;
    assert last[1..] == [];
    assert KeysOf(last) == [op] + KeysOf([]);
    assert TotalSleep(last) == 0;
  }

  /**
    What a gesture that fails at its k-th key operation leaves behind: it
    ends with that operation (no later key operation and no later sleep),
    its key operations are the first k + 1 of the full gesture, and it
    slept only the waits before the failing operation.
   */
  lemma {:induction false} FailedGestureShape(k: nat)
    requires k < KeyOps
    ensures var trace := DoublePress[..KeyPosition(k) + 1];
      && trace[|trace| - 1].Key?
      && KeysOf(trace) == [Press, Release, Press, Release][..k + 1]
      && TotalSleep(trace) == [0, 10, 20, 120][k]
  {
    var keys := [Press, Release, Press, Release];
    var waits := [0, 10, 10, 100];
    var trace := DoublePress[..KeyPosition(k) + 1];
    if k == 0 {
      assert trace == [Key(Press)] + [];
      assert KeysOf(trace) == [Press];
    } else {
      FailedGestureShape(k - 1);
      var before := DoublePress[..KeyPosition(k - 1) + 1];
      var step := [Sleep(waits[k]), Key(keys[k])];
      assert trace == before + step;
      StepShape(waits[k], keys[k]);
      ShapeOfAppend(before, step);
      assert keys[..k + 1] == keys[..k] + [keys[k]];
    }
  }
}

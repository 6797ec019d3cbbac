/** Sequences of calls on one service instance. Each public operation is a
    `Step` that yields its reply (or the error it throws) and the next store.
    Callers catch what is thrown, so a `Run` carries on from the store the
    failed call left, which is the store it started from. */
module Sessions {
  import opened Outcomes
  import opened JsValues
  import opened StorageService
  import opened Subscriptions

  /** One call on the public API. */
  datatype Op =
    | SetOp(key: string, value: Value)
    | GetOp(key: string)
    | DeleteOp(key: string)
    | BroadcastValueOp(key: string, arg: Option<Value>)
    | CheckDataOp(key: string)
    | ClearDataOp(keys: seq<string>)

  /** What a call returns: nothing (`void`), a boolean, or a value. */
  datatype Reply = Void | Flag(b: bool) | Got(v: Value)

  datatype Outcome = Outcome(reply: Result<Reply, Error>, next: Store)

  /** Whether `op` may change the entry of `key`. */
  predicate Writes(op: Op, key: string) {
    match op
    case SetOp(k, _) => k == key
    case DeleteOp(k) => k == key
    case ClearDataOp(ks) => key in ks
    case _ => false
  }

  /** One call. Only `get` and `broadcastValue` throw, and a throwing call has
      changed nothing; the log only grows, by one event exactly for `set` and
      a successful `broadcastValue`, and that event carries the call's key. */
  function Step(s: Store, op: Op): (o: Outcome)
    ensures o.reply.Failure? <==>
      (op.GetOp? && !CheckData(s, op.key)) ||
      (op.BroadcastValueOp? && !CheckData(s, op.key) && !Truthy(Argument(op.arg)))
    ensures o.reply.Failure? ==> o.next == s
    ensures op.GetOp? || op.CheckDataOp? ==> o.next == s
    ensures s.log <= o.next.log && |o.next.log| <= |s.log| + 1
    ensures |o.next.log| == |s.log| + 1 <==> op.SetOp? || (op.BroadcastValueOp? && o.reply.Success?)
    ensures |o.next.log| == |s.log| + 1 ==> o.next.log[|s.log|].key == op.key
    ensures forall k :: !Writes(op, k) ==> Get(o.next, k) == Get(s, k)
  {
    match op
    case SetOp(k, v) => Outcome(Success(Void), Set(s, k, v))
    case GetOp(k) =>
      (match Get(s, k)
       case Success(v) => Outcome(Success(Got(v)), s)
       case Failure(e) => Outcome(Failure(e), s))
    case DeleteOp(k) => Outcome(Success(Void), Delete(s, k))
    case BroadcastValueOp(k, arg) =>
      (match BroadcastValue(s, k, arg)
       case Success((b, next)) => Outcome(Success(Flag(b)), next)
       case Failure(e) => Outcome(Failure(e), s))
    case CheckDataOp(k) => Outcome(Success(Flag(CheckData(s, k))), s)
    case ClearDataOp(ks) => Outcome(Success(Void), ClearData(s, ks))
  }

  /** A sequence of calls, each starting from the store the previous one left.
      The log is append-only: what was broadcast stays broadcast. */
  function Run(s: Store, ops: seq<Op>): (r: Store)
    ensures s.log <= r.log
    ensures |r.log| <= |s.log| + |ops|
    decreases |ops|
  {
    if ops == [] then s else Run(Step(s, ops[0]).next, ops[1..])
  }

  /** Running two sequences of calls back to back is running their concatenation. */
  lemma {:induction false} RunAppend(s: Store, a: seq<Op>, b: seq<Op>)
    ensures Run(s, a + b) == Run(Run(s, a), b)
    decreases |a|
  {
    if a == [] {
      assert a + b == b;
    } else {
      assert (a + b)[0] == a[0];
      assert (a + b)[1..] == a[1..] + b;
      RunAppend(Step(s, a[0]).next, a[1..], b);
    }
  }

  /** Calls that never write `key` leave its entry as it was. */
  lemma {:induction false} RunKeepsUnwritten(s: Store, ops: seq<Op>, key: string)
    requires forall i :: 0 <= i < |ops| ==> !Writes(ops[i], key)
    ensures Get(Run(s, ops), key) == Get(s, key)
    decreases |ops|
  {
    if ops != [] {
      assert !Writes(ops[0], key);
      RunKeepsUnwritten(Step(s, ops[0]).next, ops[1..], key);
    }
  }

  /** Last write wins: after `set(key, value)`, followed by any calls that do
      not write `key`, `get(key)` returns `value`. */
  lemma LastSetWins(s: Store, before: seq<Op>, key: string, value: Value, after: seq<Op>)
    requires forall i :: 0 <= i < |after| ==> !Writes(after[i], key)
    ensures Get(Run(s, before + [SetOp(key, value)] + after), key) == Success(value)
  {
    RunAppend(s, before + [SetOp(key, value)], after);
    RunAppend(s, before, [SetOp(key, value)]);
    var mid := Run(s, before + [SetOp(key, value)]);
    assert mid == Set(Run(s, before), key, value);
    RunKeepsUnwritten(mid, after, key);
  }

  /** After `delete(key)`, followed by any calls that do not write `key`,
      `get(key)` throws and `checkData(key)` is false. */
  lemma LastDeleteWins(s: Store, before: seq<Op>, key: string, after: seq<Op>)
    requires forall i :: 0 <= i < |after| ==> !Writes(after[i], key)
    ensures Get(Run(s, before + [DeleteOp(key)] + after), key) == Failure(ValueDoesNotExist)
    ensures !CheckData(Run(s, before + [DeleteOp(key)] + after), key)
  {
    RunAppend(s, before + [DeleteOp(key)], after);
    RunAppend(s, before, [DeleteOp(key)]);
    var mid := Run(s, before + [DeleteOp(key)]);
    assert mid == Delete(Run(s, before), key);
    RunKeepsUnwritten(mid, after, key);
  }

  /** Whatever happens later, a subscription keeps what it has received and
      only ever receives more: its delivery at the start is a prefix of its
      delivery at the end. */
  lemma DeliveryOnlyGrows(sub: Subscription, s: Store, ops: seq<Op>)
    requires sub.since <= |s.log|
    ensures sub.since <= |Run(s, ops).log|
    ensures Delivered(sub, s) <= Delivered(sub, Run(s, ops))
  {
    var t := Run(s, ops);
    var extra := t.log[|s.log|..];
    assert t.log == s.log + extra;
    DeliveredAfterAppend(sub, s, t, extra);
  }

  /** `get`, `delete`, `checkData`, `clearData` and a throwing call deliver
      nothing to any subscription. */
  lemma SilentStepsDeliverNothing(sub: Subscription, s: Store, op: Op)
    requires sub.since <= |s.log|
    requires (!op.SetOp? && !op.BroadcastValueOp?) || Step(s, op).reply.Failure?
    ensures sub.since <= |Step(s, op).next.log|
    ensures Delivered(sub, Step(s, op).next) == Delivered(sub, s)
  {
  }
}

/** The panel's transport object: the replica's merge in place, and the table of callbacks awaiting a reply. */
module PanelClient {
  import opened Sequences
  import opened ConversationOrder
  import opened ClientReplica

  type Callback = nat

  datatype Fired = Fired(id: nat, callback: Callback, ok: bool)

  /**
   * registry, fired and dropped are the history: callbacks ever registered under a request identifier,
   * replies delivered, and identifiers forgotten when the connection went down.
   */
  datatype CallTable = CallTable(
    connected: bool, nextId: nat, pending: map<nat, Callback>,
    registry: map<nat, Callback>, fired: seq<Fired>, dropped: set<nat>)

  datatype CallOp =
    | Call(callback: Option<Callback>)
    | Reply(id: nat, ok: bool)
    | Connected
    | Disconnected

  const FRESH_TABLE := CallTable(false, 1, map[], map[], [], {})

  /** One step. A call made while disconnected fails at once and takes no identifier. */
  function Step(t: CallTable, op: CallOp): CallTable {
    match op
    case Call(callback) =>
      if !t.connected then t
      else if callback.None? then t.(nextId := t.nextId + 1)
      else
        t.(nextId := t.nextId + 1,
           pending := t.pending[t.nextId := callback.value],
           registry := t.registry[t.nextId := callback.value])
    case Reply(id, ok) =>
      if id in t.pending then
        t.(pending := t.pending - {id}, fired := t.fired + [Fired(id, t.pending[id], ok)])
      else t
    case Connected => t.(connected := true)
    case Disconnected => t.(connected := false, pending := map[], dropped := t.dropped + t.pending.Keys)
  }

  function Run(t: CallTable, ops: seq<CallOp>): CallTable
    decreases |ops|
  {
    if ops == [] then t else Run(Step(t, ops[0]), ops[1..])
  }

  ghost function FiredIds(t: CallTable): set<nat> {
    set f | f in t.fired :: f.id
  }

  /** Every registered callback is waiting, was answered, or was dropped: exactly one of the three. */
  ghost predicate Accounted(t: CallTable) {
    t.registry.Keys == t.pending.Keys + FiredIds(t) + t.dropped &&
    t.pending.Keys !! FiredIds(t) !! t.dropped
  }

  ghost predicate Inv(t: CallTable) {
    Accounted(t) &&
    (forall id :: id in t.registry ==> id < t.nextId) &&
    (forall id :: id in t.pending ==> id in t.registry && t.pending[id] == t.registry[id]) &&
    (forall f :: f in t.fired ==> f.id in t.registry && f.callback == t.registry[f.id]) &&
    (forall i, j :: 0 <= i < j < |t.fired| ==> t.fired[i].id != t.fired[j].id)
  }

  lemma StepKeepsInv(t: CallTable, op: CallOp)
    requires Inv(t)
    ensures Inv(Step(t, op))
  {
    var t' := Step(t, op);
    if op.Reply? && op.id in t.pending {
      var f := Fired(op.id, t.pending[op.id], op.ok);
      assert t'.fired == t.fired + [f] && f in t'.fired;
      assert FiredIds(t') == FiredIds(t) + {op.id};
      forall i | 0 <= i < |t.fired| ensures t.fired[i].id != op.id {
        assert t.fired[i] in t.fired;
        assert t.fired[i].id in FiredIds(t);
      }
    } else {
      assert FiredIds(t') == FiredIds(t);
    }
  }

  lemma {:induction false} RunKeepsInv(t: CallTable, ops: seq<CallOp>)
    requires Inv(t)
    ensures Inv(Run(t, ops))
    decreases |ops|
  {
    if ops != [] {
      StepKeepsInv(t, ops[0]);
      RunKeepsInv(Step(t, ops[0]), ops[1..]);
    }
  }

  /**
   * Over any run, across reconnects, a callback fires at most once and only for the reply to its own call,
   * and each is waiting, answered or dropped.
   */
  lemma RepliesReachTheirCallback(ops: seq<CallOp>, i: nat, j: nat)
    requires i < |Run(FRESH_TABLE, ops).fired| && j < |Run(FRESH_TABLE, ops).fired|
    ensures var t := Run(FRESH_TABLE, ops);
      && (t.fired[i].id == t.fired[j].id ==> i == j)
      && t.fired[i].id in t.registry && t.registry[t.fired[i].id] == t.fired[i].callback
      && t.fired[i].id !in t.pending && t.fired[i].id !in t.dropped
      && t.registry.Keys == t.pending.Keys + FiredIds(t) + t.dropped
  {
    RunKeepsInv(FRESH_TABLE, ops);
    var t := Run(FRESH_TABLE, ops);
    assert t.fired[i] in t.fired && t.fired[i].id in FiredIds(t);
  }

  /** Connections come and go, a call takes a fresh identifier while connected, and otherwise does nothing. */
  lemma ConnectionSteps(t: CallTable, callback: Option<Callback>)
    ensures Step(t, Connected) == t.(connected := true)
    ensures !Step(t, Disconnected).connected && Step(t, Disconnected).pending == map[]
    ensures Step(t, Disconnected).nextId == t.nextId && Step(t, Disconnected).fired == t.fired
    ensures !t.connected ==> Step(t, Call(callback)) == t
    ensures t.connected ==> Step(t, Call(callback)).nextId == t.nextId + 1 && Step(t, Call(callback)).connected
    ensures callback.None? ==> Step(t, Call(callback)).pending == t.pending
  {}

  predicate Interrupts(op: CallOp, id: nat) {
    op.Disconnected? || (op.Reply? && op.id == id)
  }

  /** While neither its reply comes nor the connection goes, a registered callback keeps waiting. */
  lemma {:induction false} KeepsWaiting(t: CallTable, ops: seq<CallOp>, id: nat)
    requires Inv(t) && id in t.pending && forall i :: 0 <= i < |ops| ==> !Interrupts(ops[i], id)
    ensures id in Run(t, ops).pending && Run(t, ops).pending[id] == t.pending[id]
    decreases |ops|
  {
    if ops != [] {
      StepKeepsInv(t, ops[0]);
      assert !Interrupts(ops[0], id) && forall i :: 0 <= i < |ops[1..]| ==> ops[1..][i] == ops[i + 1];
      KeepsWaiting(Step(t, ops[0]), ops[1..], id);
    }
  }

  /** A callback given with a call is run with the outcome of the reply to it, unless the connection goes first. */
  lemma ReplyRunsTheCallback(history: seq<CallOp>, callback: Callback, ops: seq<CallOp>, ok: bool)
    requires Run(FRESH_TABLE, history).connected
    requires forall i :: 0 <= i < |ops| ==> !Interrupts(ops[i], Run(FRESH_TABLE, history).nextId)
    ensures var t := Run(FRESH_TABLE, history);
      var waiting := Run(Step(t, Call(Some(callback))), ops);
      && Step(waiting, Reply(t.nextId, ok)).fired == waiting.fired + [Fired(t.nextId, callback, ok)]
      && Step(Step(waiting, Disconnected), Reply(t.nextId, ok)).fired == waiting.fired
  {
    RunKeepsInv(FRESH_TABLE, history);
    var t := Run(FRESH_TABLE, history);
    StepKeepsInv(t, Call(Some(callback)));
    KeepsWaiting(Step(t, Call(Some(callback))), ops, t.nextId);
  }

  class Client {
    var conversations: seq<Conversation>
    var connected: bool
    var nextId: nat
    var pending: map<nat, Callback>
    ghost var registry: map<nat, Callback>
    ghost var fired: seq<Fired>
    ghost var dropped: set<nat>

    ghost function Table(): CallTable
      reads this
    {
      CallTable(connected, nextId, pending, registry, fired, dropped)
    }

    constructor ()
      ensures Table() == FRESH_TABLE && conversations == []
    {
      conversations, connected, nextId, pending := [], false, 1, map[];
      registry, fired, dropped := map[], [], {};
    }

    /** Returns the identifier written on the request, or nothing when the call failed on the spot. */
    method Call(callback: Option<Callback>) returns (id: Option<nat>)
      modifies this
      ensures Table() == Step(old(Table()), CallOp.Call(callback))
      ensures id == (if old(connected) then Some(old(nextId)) else None)
      ensures conversations == old(conversations)
    {
      if !connected {
        return None;
      }
      id := Some(nextId);
      if callback.Some? {
        pending := pending[nextId := callback.value];
        registry := registry[nextId := callback.value];
      }
      nextId := nextId + 1;
    }

    /** Takes the waiting callback out before it runs, so a repeated reply finds nothing. */
    method HandleReply(id: nat, ok: bool) returns (callback: Option<Callback>)
      modifies this
      ensures Table() == Step(old(Table()), Reply(id, ok))
      ensures callback == (if id in old(pending) then Some(old(pending)[id]) else None)
      ensures conversations == old(conversations)
    {
      callback := None;
      if id in pending {
        callback := Some(pending[id]);
        fired := fired + [Fired(id, pending[id], ok)];
        pending := pending - {id};
      }
    }

    method ConnectionChanged(up: bool)
      modifies this
      ensures Table() == Step(old(Table()), if up then Connected else Disconnected)
      ensures conversations == old(conversations)
    {
      connected := up;
      if !up {
        dropped := dropped + pending.Keys;
        pending := map[];
      }
    }

    method MergeConversation(conv: Conversation)
      modifies this`conversations
      ensures MergeResult(old(conversations), conv, conversations)
    {
      if conv.id == "" {
        return;
      }
      var list := conversations;
      var found := false;
      var i := 0;
      while i < |list| && !found
        invariant 0 <= i <= |list|
        invariant !found ==> list == conversations && forall k :: 0 <= k < i ==> list[k].id != conv.id
        invariant found ==> list == Splice(conversations, conv) && Position(conversations, conv.id) < |conversations|
        decreases |list| - i, !found
      {
        if list[i].id == conv.id {
          list := list[i := conv];
          found := true;
        }
        i := i + 1;
      }
      if !found {
        list := list + [conv];
      }
      conversations := SortForPanel(list);
    }
  }

  lemma InsertKeepsSorted(out: ClientList, k: nat, c: Conversation)
    requires ClientSorted(out) && k <= |out|
    requires forall i :: 0 <= i < k ==> !ClientBefore(c, out[i])
    requires k < |out| ==> ClientBefore(c, out[k])
    ensures ClientSorted(out[..k] + [c] + out[k..])
    ensures multiset(out[..k] + [c] + out[k..]) == multiset(out + [c])
  {
    InsertIsPermutation(out, k, c);
    forall j | k <= j < |out| ensures !ClientBefore(out[j], c) {
      assert j == k || !ClientBefore(out[j], out[k]);
    }
  }

  /** A sort under the panel's comparator. */
  method SortForPanel(list: ClientList) returns (out: ClientList)
    ensures SortOf(list, out)
  {
    out := [];
    for n := 0 to |list|
      invariant SortOf(list[..n], out)
    {
      var k := 0;
      while k < |out| && !ClientBefore(list[n], out[k])
        invariant 0 <= k <= |out|
        invariant forall i :: 0 <= i < k ==> !ClientBefore(list[n], out[i])
      {
        k := k + 1;
      }
      assert list[..n + 1] == list[..n] + [list[n]];
      InsertKeepsSorted(out, k, list[n]);
      out := out[..k] + [list[n]] + out[k..];
    }
    assert list[..|list|] == list;
  }
}

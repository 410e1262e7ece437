/**
 Whole runs of the sign-in store: any calls, in any order, answered by one store that starts empty.
 What a run promises is said of the calls and their replies alone.
 */
module LoginRuns {
  import opened Results
  import opened CliLogin

  datatype Call =
    | StartCall(id: RequestId, deviceCode: string, userCode: string, challenge: string, now: nat)
    | DecideCall(id: RequestId, code: string, deny: bool, identity: Identity, bootstrapHash: string, now: nat)
    | ExchangeCall(deviceCode: string, verifier: string, bootstrapHash: string, now: nat, newKey: KeyId)
    | CreateCall(key: KeyId, expiresMs: int)
    | RevokeCall(key: KeyId)

  datatype Reply =
    | StartReply(result: Result<int, StartError>)
    | DecideReply(decision: Decision)
    | ExchangeReply(poll: Option<Poll>)
    | KeyReply(ok: bool)

  predicate Answers(c: Call, reply: Reply) {
    match c
    case StartCall(_, _, _, _, _) => reply.StartReply?
    case DecideCall(_, _, _, _, _, _) => reply.DecideReply?
    case ExchangeCall(_, _, _, _, _) => reply.ExchangeReply?
    case CreateCall(_, _) => reply.KeyReply?
    case RevokeCall(_) => reply.KeyReply?
  }

  /** The call did what it was for. */
  predicate Effective(reply: Reply) {
    match reply
    case StartReply(r) => r.Ok?
    case DecideReply(d) => d.Decided?
    case ExchangeReply(p) => IsComplete(p)
    case KeyReply(ok) => ok
  }

  /** The reply hands a key to the caller. */
  predicate Yields(c: Call, reply: Reply) {
    c.ExchangeCall? && reply.ExchangeReply? && Effective(reply)
  }

  /** The event an effective call leaves. */
  predicate Records(hash: Digest, c: Call, reply: Reply, e: Event) {
    match c
    case StartCall(id, deviceCode, userCode, challenge, now) =>
      && e.Started? && e.at == now && e.id == id && e.deviceHash == hash(deviceCode)
      && e.challenge == challenge && e.userCode == userCode
    case DecideCall(id, code, deny, identity, bootstrapHash, now) =>
      if deny then e.Refusal?
      else
        && e.Approval? && e.at == now && e.id == id && e.userCode == code
        && (if identity.keyId == "" then e.approver == ByOperator(bootstrapHash)
            else e.approver.ByKey? && e.approver.id == identity.keyId)
    case ExchangeCall(deviceCode, verifier, bootstrapHash, now, newKey) =>
      && Yields(c, reply) && e.Issued? && e.at == now && e.deviceHash == hash(deviceCode) && e.verifier == verifier
      && e.bootstrapHash == bootstrapHash && e.key == newKey == reply.poll.value.key
      && e.expiresMs == reply.poll.value.expiresMs
    case CreateCall(key, _) => e == Created(key)
    case RevokeCall(key) => e == Revoked(key)
  }

  /** How many calls were effective, which is where the next event goes. */
  function Effects(replies: seq<Reply>): nat {
    if replies == [] then 0
    else Effects(replies[..|replies| - 1]) + if Effective(replies[|replies| - 1]) then 1 else 0
  }

  /** The history holds one event for each effective call, in call order, and nothing else. */
  ghost predicate Faithful(hash: Digest, calls: seq<Call>, replies: seq<Reply>, history: History) {
    && |calls| == |replies| && |history| == Effects(replies)
    && forall i :: 0 <= i < |calls| ==> RecordedAt(hash, calls, replies, history, i)
  }

  ghost predicate RecordedAt(hash: Digest, calls: seq<Call>, replies: seq<Reply>, history: History, i: nat)
    requires |calls| == |replies|
  {
    i < |calls| && Answers(calls[i], replies[i]) &&
    (Effective(replies[i]) ==>
       Effects(replies[..i]) < |history| && Records(hash, calls[i], replies[i], history[Effects(replies[..i])]))
  }

  lemma {:induction false} EffectsAscend(replies: seq<Reply>, i: nat, j: nat)
    requires i <= j <= |replies|
    ensures Effects(replies[..i]) <= Effects(replies[..j])
    ensures i < j && Effective(replies[i]) ==> Effects(replies[..i]) < Effects(replies[..j])
    decreases j
  {
    if i < j {
      assert replies[..j][..j - 1] == replies[..j - 1];
      EffectsAscend(replies, i, j - 1);
    }
  }

  /** The call behind an event. */
  lemma {:induction false} CallOf(hash: Digest, calls: seq<Call>, replies: seq<Reply>, history: History, k: nat, n: nat)
    returns (i: nat)
    requires Faithful(hash, calls, replies, history) && n <= |calls| && k < Effects(replies[..n])
    ensures i < n && Effective(replies[i]) && Effects(replies[..i]) == k < |history|
    ensures Records(hash, calls[i], replies[i], history[k])
    decreases n
  {
    assert replies[..n][..n - 1] == replies[..n - 1];
    if Effective(replies[n - 1]) && Effects(replies[..n - 1]) == k {
      i := n - 1;
      assert RecordedAt(hash, calls, replies, history, i);
    } else {
      i := CallOf(hash, calls, replies, history, k, n - 1);
    }
  }

  lemma FaithfulSnoc(hash: Digest, calls: seq<Call>, replies: seq<Reply>, history: History, c: Call, reply: Reply,
                     after: History)
    requires Faithful(hash, calls, replies, history) && Answers(c, reply)
    requires if Effective(reply) then |after| == |history| + 1 && history == after[..|history|] &&
               Records(hash, c, reply, after[|history|]) else after == history
    ensures Faithful(hash, calls + [c], replies + [reply], after)
  {
    var calls', replies' := calls + [c], replies + [reply];
    assert replies'[..|replies|] == replies;
    forall i | 0 <= i < |calls'| ensures RecordedAt(hash, calls', replies', after, i) {
      if i < |calls| {
        assert RecordedAt(hash, calls, replies, history, i);
        assert replies'[..i] == replies[..i];
      }
    }
  }

  // ---- What a run promises -----------------------------------------------------------

  /** The key handed out by call i goes back to the start s and the approval a: the device code and the
      verifier are those the start was made with, the approval names its request and shows its
      confirmation code, both answers come within its ten minutes, and the key lives no longer than
      thirty days from the approval and no longer than the key it was approved with, which was not
      revoked before the key was handed out. */
  ghost predicate KeyFrom(hash: Digest, s256: Digest, calls: seq<Call>, replies: seq<Reply>, keys: Keys,
                          i: nat, s: nat, a: nat)
    requires |calls| == |replies|
  {
    && s < a < i < |calls| && Yields(calls[i], replies[i])
    && calls[s].StartCall? && Effective(replies[s]) && calls[a].DecideCall? && !calls[a].deny && Effective(replies[a])
    && hash(calls[i].deviceCode) == hash(calls[s].deviceCode) && s256(calls[i].verifier) == calls[s].challenge
    && calls[a].id == calls[s].id && calls[a].code == calls[s].userCode
    && calls[a].now < calls[s].now + LIFETIME_MS && calls[i].now < calls[s].now + LIFETIME_MS
    && replies[i].poll.value.key == calls[i].newKey
    && calls[i].now < replies[i].poll.value.expiresMs <= calls[a].now + KEY_LIFETIME_MS
    && ApproverHolds(calls, replies, keys, i, a)
  }

  ghost predicate ApproverHolds(calls: seq<Call>, replies: seq<Reply>, keys: Keys, i: nat, a: nat)
    requires |calls| == |replies| && a < i < |calls| && calls[a].DecideCall? && Yields(calls[i], replies[i])
  {
    var keyId := calls[a].identity.keyId;
    if keyId == "" then calls[a].bootstrapHash == calls[i].bootstrapHash
    else
      && keyId in keys && (keys[keyId].expiresMs == 0 || replies[i].poll.value.expiresMs <= keys[keyId].expiresMs)
      && forall r :: 0 <= r < i && calls[r] == RevokeCall(keyId) ==> !Effective(replies[r])
  }

  /** The start and the approval behind a key, with the event of the start. */
  lemma KeySource(hash: Digest, s256: Digest, calls: seq<Call>, replies: seq<Reply>, t: Trace, requests: Requests,
                  keys: Keys, i: nat)
    returns (s: nat, a: nat)
    requires Faithful(hash, calls, replies, t.history) && Sound(s256, t, requests, keys)
    requires i < |calls| && Yields(calls[i], replies[i])
    ensures KeyFrom(hash, s256, calls, replies, keys, i, s, a)
    ensures SameGrant(replies, t.history, s, i)
  {
    var history := t.history;
    assert RecordedAt(hash, calls, replies, history, i);
    var at := Effects(replies[..i]);
    var start, approval := EveryKeyWasApproved(s256, history, at);
    s := CallOf(hash, calls, replies, history, start, i);
    a := CallOf(hash, calls, replies, history, approval, i);
    if a <= s { EffectsAscend(replies, a, s); }
    assert s != a;
    assert EventTied(t, keys, history[approval]);
    forall r | 0 <= r < i && calls[r] == RevokeCall(calls[a].identity.keyId) && calls[a].identity.keyId != ""
      ensures !Effective(replies[r])
    {
      if Effective(replies[r]) {
        assert RecordedAt(hash, calls, replies, history, r);
        EffectsAscend(replies, r, i);
        RevocationIsFinal(s256, history, Effects(replies[..r]), at, approval);
      }
    }
  }

  /** The events of two effective calls are of one grant. */
  ghost predicate SameGrant(replies: seq<Reply>, history: History, s: nat, i: nat) {
    && s < |replies| && i < |replies| && Effects(replies[..s]) < |history| && Effects(replies[..i]) < |history|
    && history[Effects(replies[..s])].Started? && history[Effects(replies[..i])].Issued?
    && history[Effects(replies[..s])].grant == history[Effects(replies[..i])].grant
  }

  /** Two keys never come from one start. */
  lemma StartsDiffer(s256: Digest, replies: seq<Reply>, history: History, i: nat, j: nat, s: nat, s': nat)
    requires Lawful(s256, history) && i < j && j < |replies| && Effective(replies[i])
    requires SameGrant(replies, history, s, i) && SameGrant(replies, history, s', j)
    ensures s != s'
  {
    EffectsAscend(replies, i, j);
    OneKeyPerGrant(s256, history, Effects(replies[..i]), Effects(replies[..j]));
  }

  // ---- The run ------------------------------------------------------------------------

  method Handle(store: MetadataStore, c: Call) returns (reply: Reply)
    requires store.Valid()
    modifies store`requests, store`keys, store`trace
    ensures store.Valid() && Answers(c, reply)
    ensures if Effective(reply) then
              && |store.trace.history| == |old(store.trace.history)| + 1
              && old(store.trace.history) == store.trace.history[..|old(store.trace.history)|]
              && Records(store.hash, c, reply, store.trace.history[|old(store.trace.history)|])
            else store.trace == old(store.trace)
  {
    match c
    case StartCall(id, deviceCode, userCode, challenge, now) =>
      var r := store.Start(id, deviceCode, userCode, challenge, now);
      reply := StartReply(r);
    case DecideCall(id, code, deny, identity, bootstrapHash, now) =>
      var d := store.Decide(id, code, deny, identity, bootstrapHash, now);
      reply := DecideReply(d);
    case ExchangeCall(deviceCode, verifier, bootstrapHash, now, newKey) =>
      var p, _ := store.Exchange(deviceCode, verifier, bootstrapHash, now, newKey);
      reply := ExchangeReply(p);
    case CreateCall(key, expiresMs) =>
      var ok := store.CreateKey(key, expiresMs);
      reply := KeyReply(ok);
    case RevokeCall(key) =>
      var ok := store.RevokeKey(key);
      reply := KeyReply(ok);
  }

  method HandleNext(store: MetadataStore, ghost done: seq<Call>, replies: seq<Reply>, c: Call)
    returns (after: seq<Reply>)
    requires store.Valid() && Faithful(store.hash, done, replies, store.trace.history)
    modifies store`requests, store`keys, store`trace
    ensures store.Valid() && Faithful(store.hash, done + [c], after, store.trace.history)
  {
    ghost var before := store.trace.history;
    var reply := Handle(store, c);
    FaithfulSnoc(store.hash, done, replies, before, c, reply, store.trace.history);
    after := replies + [reply];
  }

  method HandleAll(store: MetadataStore, calls: seq<Call>) returns (replies: seq<Reply>)
    requires store.Valid() && store.trace.history == []
    modifies store`requests, store`keys, store`trace
    ensures store.Valid() && Faithful(store.hash, calls, replies, store.trace.history)
  {
    replies := [];
    for n := 0 to |calls|
      invariant store.Valid() && Faithful(store.hash, calls[..n], replies, store.trace.history)
    {
      replies := HandleNext(store, calls[..n], replies, calls[n]);
      assert calls[..n + 1] == calls[..n] + [calls[n]];
    }
    assert calls[..|calls|] == calls;
  }

  /** Answers the calls in order. Every key handed out has its own start, and an approval of it. */
  method Serve(hash: Digest, s256: Digest, calls: seq<Call>)
    returns (store: MetadataStore, replies: seq<Reply>, ghost starts: seq<nat>, ghost approvals: seq<nat>)
    ensures store.Valid() && |replies| == |starts| == |approvals| == |calls|
    ensures forall i :: 0 <= i < |calls| ==> Answers(calls[i], replies[i])
    ensures forall i :: 0 <= i < |calls| && Yields(calls[i], replies[i]) ==>
              KeyFrom(hash, s256, calls, replies, store.keys, i, starts[i], approvals[i])
    ensures forall i, j :: 0 <= i < j < |calls| && Yields(calls[i], replies[i]) && Yields(calls[j], replies[j]) ==>
              starts[i] != starts[j] && calls[i].newKey != calls[j].newKey
  {
    store := new MetadataStore(hash, s256);
    replies := HandleAll(store, calls);
    starts, approvals := Sources(hash, s256, calls, replies, store.trace, store.requests, store.keys);
  }

  lemma Sources(hash: Digest, s256: Digest, calls: seq<Call>, replies: seq<Reply>, t: Trace, requests: Requests,
                keys: Keys)
    returns (starts: seq<nat>, approvals: seq<nat>)
    requires Faithful(hash, calls, replies, t.history) && Sound(s256, t, requests, keys)
    ensures |starts| == |approvals| == |calls|
    ensures forall i :: 0 <= i < |calls| ==> Answers(calls[i], replies[i])
    ensures forall i :: 0 <= i < |calls| && Yields(calls[i], replies[i]) ==>
              KeyFrom(hash, s256, calls, replies, keys, i, starts[i], approvals[i])
    ensures forall i, j :: 0 <= i < j < |calls| && Yields(calls[i], replies[i]) && Yields(calls[j], replies[j]) ==>
              starts[i] != starts[j] && calls[i].newKey != calls[j].newKey
  {
    starts, approvals := [], [];
    for n := 0 to |calls|
      invariant |starts| == |approvals| == n
      invariant forall i :: 0 <= i < n && Yields(calls[i], replies[i]) ==>
                  KeyFrom(hash, s256, calls, replies, keys, i, starts[i], approvals[i]) &&
                  SameGrant(replies, t.history, starts[i], i)
    {
      if Yields(calls[n], replies[n]) {
        var s, a := KeySource(hash, s256, calls, replies, t, requests, keys, n);
        starts, approvals := starts + [s], approvals + [a];
      } else {
        starts, approvals := starts + [0], approvals + [0];
      }
    }
    forall i, j | 0 <= i < j < |calls| && Yields(calls[i], replies[i]) && Yields(calls[j], replies[j])
      ensures starts[i] != starts[j] && calls[i].newKey != calls[j].newKey
    {
      StartsDiffer(s256, replies, t.history, i, j, starts[i], starts[j]);
      KeysDiffer(hash, s256, calls, replies, t.history, i, j);
    }
    forall i | 0 <= i < |calls| ensures Answers(calls[i], replies[i]) {
      assert RecordedAt(hash, calls, replies, t.history, i);
    }
  }

  lemma KeysDiffer(hash: Digest, s256: Digest, calls: seq<Call>, replies: seq<Reply>, history: History, i: nat, j: nat)
    requires Faithful(hash, calls, replies, history) && Lawful(s256, history)
    requires i < j < |calls| && Yields(calls[i], replies[i]) && Yields(calls[j], replies[j])
    ensures calls[i].newKey != calls[j].newKey
  {
    assert RecordedAt(hash, calls, replies, history, i) && RecordedAt(hash, calls, replies, history, j);
    EffectsAscend(replies, i, j);
    OneKeyPerGrant(s256, history, Effects(replies[..i]), Effects(replies[..j]));
  }
}

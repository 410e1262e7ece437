/**
 Browser sign-in for the command line: a device grant is started by the CLI, decided by an
 administrator, and exchanged for a key by the holder of the proof-key verifier (RFC 7636).
 Every method is one transaction; times are milliseconds given by the caller.
 */
module CliLogin {
  import opened Results

  type RequestId = string
  type KeyId = string
  type Requests = map<RequestId, Request>
  type Keys = map<KeyId, Key>
  type Digest = string -> string

  const LIFETIME_MS := 600000
  const POLL_INTERVAL_MS := 2000
  const MAX_OUTSTANDING := 256
  const KEY_LIFETIME_MS := 2592000000

  datatype Status = Pending | Approved | Denied | Consumed

  datatype Request = Request(deviceHash: string, userCode: string, challenge: string, expiresMs: int,
                             nextPollMs: int, status: Status, approverKeyId: KeyId, approverHash: string,
                             keyExpiresMs: int)

  /** An expiry of 0 means none. */
  datatype Key = Key(expiresMs: int, revoked: bool)

  datatype Identity = Identity(thisStore: bool, subject: string, keyId: KeyId)

  datatype Decision = Decided(status: Status) | DecisionExpired | Conflict | InvalidCode | Unauthorized

  datatype Poll = Complete(key: KeyId, expiresMs: int) | PollPending | PollDenied | PollExpired

  datatype StartError = Capacity | Storage

  // ---- What happened -----------------------------------------------------------

  datatype Approver = ByKey(id: KeyId, expiresMs: int) | ByOperator(hash: string)

  /** A grant is one started request; identifiers may recur once a request has expired, grants never. */
  datatype Event =
    | Started(grant: nat, at: int, id: RequestId, deviceHash: string, challenge: string, userCode: string)
    | Approval(grant: nat, at: int, id: RequestId, userCode: string, approver: Approver)
    | Refusal(grant: nat)
    | Issued(grant: nat, at: int, deviceHash: string, verifier: string, bootstrapHash: string, key: KeyId,
             expiresMs: int)
    | Created(key: KeyId)
    | Revoked(key: KeyId)

  type History = seq<Event>

  ghost predicate Decided?(before: History, grant: nat) {
    exists e :: e in before && (e.Approval? || e.Refusal?) && e.grant == grant
  }

  ghost predicate Issued?(before: History, grant: nat) {
    exists e :: e in before && e.Issued? && e.grant == grant
  }

  ghost predicate KeyMade(before: History, key: KeyId) {
    exists e :: e in before && (e.Created? || e.Issued?) && e.key == key
  }

  /** A time is within a key's expiry. */
  predicate Within(at: int, expiresMs: int) {
    expiresMs == 0 || at < expiresMs
  }

  ghost predicate ApprovedOnce(before: History, e: Event, s: Event)
    requires e.Approval?
  {
    && s in before && s.Started? && s.grant == e.grant
    && e.id == s.id && e.userCode == s.userCode && e.at < s.at + LIFETIME_MS
    && !Decided?(before, e.grant)
    && (e.approver.ByKey? ==> Revoked(e.approver.id) !in before && Within(e.at, e.approver.expiresMs))
  }

  /** A key is issued for an approved grant whose challenge the verifier answers, before the request
      and the approver expire, with no longer life than either allows. */
  ghost predicate IssuedFor(s256: Digest, before: History, e: Event, s: Event, a: Event)
    requires e.Issued?
  {
    && s in before && s.Started? && s.grant == e.grant && a in before && a.Approval? && a.grant == e.grant
    && !Issued?(before, e.grant) && !KeyMade(before, e.key)
    && e.deviceHash == s.deviceHash && s256(e.verifier) == s.challenge && e.at < s.at + LIFETIME_MS
    && e.at < e.expiresMs <= a.at + KEY_LIFETIME_MS
    && (match a.approver
        case ByKey(id, expires) => Revoked(id) !in before && (expires == 0 || e.expiresMs <= expires)
        case ByOperator(hash) => hash == e.bootstrapHash)
  }

  ghost predicate Justified(s256: Digest, before: History, e: Event) {
    match e
    case Started(grant, _, _, _, _, _) => forall s :: s in before && s.Started? ==> s.grant < grant
    case Approval(_, _, _, _, _) => exists s :: ApprovedOnce(before, e, s)
    case Refusal(grant) => !Decided?(before, grant)
    case Issued(_, _, _, _, _, _, _) => exists s, a :: IssuedFor(s256, before, e, s, a)
    case Created(key) => !KeyMade(before, key)
    case Revoked(key) => KeyMade(before, key)
  }

  ghost predicate Lawful(s256: Digest, history: History) {
    history == [] ||
    (Lawful(s256, history[..|history| - 1]) && Justified(s256, history[..|history| - 1], history[|history| - 1]))
  }

  lemma {:induction false} LawfulAt(s256: Digest, history: History, i: nat)
    requires Lawful(s256, history) && i < |history|
    ensures Justified(s256, history[..i], history[i])
    decreases |history|
  {
    var before := history[..|history| - 1];
    if i < |before| {
      LawfulAt(s256, before, i);
      assert before[..i] == history[..i];
    } else {
      assert before == history[..i];
    }
  }

  /** A grant yields at most one key. */
  lemma OneKeyPerGrant(s256: Digest, history: History, i: nat, j: nat)
    requires Lawful(s256, history) && i < j < |history| && history[i].Issued? && history[j].Issued?
    ensures history[i].grant != history[j].grant && history[i].key != history[j].key
  {
    LawfulAt(s256, history, j);
    var s, a :| IssuedFor(s256, history[..j], history[j], s, a);
    assert history[..j][i] == history[i];
  }

  /** Every key goes back to one approval of its grant, made with the confirmation code shown to the
      CLI, before the request's ten minutes were over; it answers the challenge, and outlives neither
      its approver nor thirty days from approval. */
  lemma EveryKeyWasApproved(s256: Digest, history: History, i: nat) returns (s: nat, a: nat)
    requires Lawful(s256, history) && i < |history| && history[i].Issued?
    ensures s < a < i && history[s].Started? && history[a].Approval?
    ensures history[s].grant == history[a].grant == history[i].grant
    ensures history[a].id == history[s].id && history[a].userCode == history[s].userCode
    ensures history[a].at < history[s].at + LIFETIME_MS && history[i].deviceHash == history[s].deviceHash
    ensures s256(history[i].verifier) == history[s].challenge && history[i].at < history[s].at + LIFETIME_MS
    ensures history[i].at < history[i].expiresMs <= history[a].at + KEY_LIFETIME_MS
    ensures history[a].approver.ByKey? && history[a].approver.expiresMs != 0 ==>
              history[i].expiresMs <= history[a].approver.expiresMs
    ensures history[a].approver.ByOperator? ==> history[a].approver.hash == history[i].bootstrapHash
    ensures forall b :: 0 <= b < i && b != a && (history[b].Approval? || history[b].Refusal?) ==>
              history[b].grant != history[i].grant
  {
    LawfulAt(s256, history, i);
    var start, approval :| IssuedFor(s256, history[..i], history[i], start, approval);
    a :| 0 <= a < i && history[..i][a] == approval;
    LawfulAt(s256, history, a);
    var shown :| ApprovedOnce(history[..a], history[a], shown);
    s :| 0 <= s < a && history[..a][s] == shown;
    GrantStartedOnce(s256, history, s, start);
    forall b | 0 <= b < i && b != a && (history[b].Approval? || history[b].Refusal?)
      ensures history[b].grant != history[i].grant
    {
      DecidedOnce(s256, history, if a < b then a else b, if a < b then b else a);
    }
  }

  lemma GrantStartedOnce(s256: Digest, history: History, i: nat, e: Event)
    requires Lawful(s256, history) && i < |history| && e in history
    requires history[i].Started? && e.Started? && e.grant == history[i].grant
    ensures e == history[i]
  {
    var j :| 0 <= j < |history| && history[j] == e;
    if i < j { StartsAscend(s256, history, i, j); }
    if j < i { StartsAscend(s256, history, j, i); }
  }

  lemma StartsAscend(s256: Digest, history: History, i: nat, j: nat)
    requires Lawful(s256, history) && i < j < |history| && history[i].Started? && history[j].Started?
    ensures history[i].grant < history[j].grant
  {
    LawfulAt(s256, history, j);
    assert history[..j][i] == history[i];
  }

  lemma DecidedOnce(s256: Digest, history: History, i: nat, j: nat)
    requires Lawful(s256, history) && i < j < |history|
    requires (history[i].Approval? || history[i].Refusal?) && (history[j].Approval? || history[j].Refusal?)
    ensures history[i].grant != history[j].grant
  {
    LawfulAt(s256, history, j);
    assert history[..j][i] == history[i];
  }

  /** Revoking a key ends its authority: no key is issued on its approval afterwards. */
  lemma RevocationIsFinal(s256: Digest, history: History, r: nat, i: nat, a: nat)
    requires Lawful(s256, history) && r < i < |history| && a < i
    requires history[r].Revoked? && history[i].Issued? && history[a].Approval? && history[a].grant == history[i].grant
    ensures !(history[a].approver.ByKey? && history[a].approver.id == history[r].key)
  {
    LawfulAt(s256, history, i);
    var start, approval :| IssuedFor(s256, history[..i], history[i], start, approval);
    var b :| 0 <= b < i && history[..i][b] == approval;
    if b != a { DecidedOnce(s256, history, if a < b then a else b, if a < b then b else a); }
    assert history[..i][r] == history[r];
  }

  // ---- The stored rows -----------------------------------------------------------

  /** What happened, the grant of each row, and the row of each grant and of each device. */
  datatype Trace = Trace(history: History, grants: map<RequestId, nat>, holders: map<nat, RequestId>,
                         devices: map<string, RequestId>, nextGrant: nat) {
    function With(e: Event): Trace {
      this.(history := history + [e])
    }

    function Starting(id: RequestId, row: Request, now: int): Trace {
      Trace(history + [Started(nextGrant, now, id, row.deviceHash, row.challenge, row.userCode)],
            grants[id := nextGrant], holders[nextGrant := id], devices[row.deviceHash := id], nextGrant + 1)
    }
  }

  /** What a stored request says about its grant. */
  ghost predicate RowTied(history: History, keys: Keys, grant: nat, id: RequestId, r: Request) {
    && (exists s :: StartOf(history, grant, id, r, s))
    && (r.status.Pending? ==> !Decided?(history, grant) && !Issued?(history, grant))
    && (r.status.Approved? ==> !Issued?(history, grant) && exists a :: ApprovalTied(history, keys, grant, r, a))
  }

  ghost predicate StartOf(history: History, grant: nat, id: RequestId, r: Request, s: Event) {
    && s in history && s.Started? && s.grant == grant && s.id == id && s.deviceHash == r.deviceHash
    && s.challenge == r.challenge && s.userCode == r.userCode && s.at + LIFETIME_MS == r.expiresMs
  }

  ghost predicate ApprovalTied(history: History, keys: Keys, grant: nat, r: Request, a: Event) {
    && a in history && a.Approval? && a.grant == grant && r.keyExpiresMs <= a.at + KEY_LIFETIME_MS
    && (r.approverKeyId != "" ==> r.approverKeyId in keys)
    && a.approver == ApproverOf(keys, r.approverKeyId, r.approverHash)
  }

  /** Who approves: the signed-in key with its expiry, or the operator of a bootstrap secret. */
  function ApproverOf(keys: Keys, keyId: KeyId, hash: string): Approver {
    if keyId == "" then ByOperator(hash)
    else ByKey(keyId, if keyId in keys then keys[keyId].expiresMs else 0)
  }

  ghost predicate KeyTied(history: History, keys: Keys, key: KeyId) {
    && (key in keys <==> KeyMade(history, key))
    && ((key in keys && keys[key].revoked) <==> Revoked(key) in history)
  }

  /** A past event is of a past grant, and an approving key is still stored, with the expiry it had. */
  ghost predicate EventTied(t: Trace, keys: Keys, e: Event) {
    e in t.history ==>
      && (e.Started? || e.Approval? || e.Refusal? || e.Issued? ==> e.grant < t.nextGrant)
      && (e.Approval? && e.approver.ByKey? ==>
            e.approver.id in keys && keys[e.approver.id].expiresMs == e.approver.expiresMs)
  }

  /** A stored row has a grant, which no other row has. */
  ghost predicate RowAt(t: Trace, requests: Requests, keys: Keys, id: RequestId) {
    id in requests ==>
      && id in t.grants && RowTied(t.history, keys, t.grants[id], id, requests[id])
      && Lookup(t.holders, t.grants[id]) == Some(id)
  }

  ghost predicate Tied(t: Trace, requests: Requests, keys: Keys) {
    && requests.Keys <= t.grants.Keys
    && (forall id :: RowAt(t, requests, keys, id))
    && (forall key :: KeyTied(t.history, keys, key))
    && (forall e :: EventTied(t, keys, e))
  }

  ghost predicate DevicesTied(requests: Requests, devices: map<string, RequestId>) {
    forall id :: id in requests ==> Lookup(devices, requests[id].deviceHash) == Some(id)
  }

  ghost predicate Sound(s256: Digest, t: Trace, requests: Requests, keys: Keys) {
    && Lawful(s256, t.history)
    && Tied(t, requests, keys)
    && DevicesTied(requests, t.devices)
    && |requests| <= MAX_OUTSTANDING
  }

  predicate KeyUsable(keys: Keys, id: KeyId, now: int) {
    id in keys && !keys[id].revoked && Within(now, keys[id].expiresMs)
  }

  /** Who may decide a request. */
  predicate MayDecide(keys: Keys, identity: Identity, now: int) {
    && identity.thisStore && identity.subject != ""
    && if identity.keyId != "" then KeyUsable(keys, identity.keyId, now) else identity.subject == "operator"
  }

  function Live(requests: Requests, now: int): Requests {
    map id | id in requests && requests[id].expiresMs > now :: requests[id]
  }

  function NewRequest(deviceHash: string, userCode: string, challenge: string, now: int): Request {
    Request(deviceHash, userCode, challenge, now + LIFETIME_MS, 0, Pending, "", "", 0)
  }

  /** A request that waits for its decision for ten minutes, and may be polled at once. */
  predicate OpensFor(r: Request, deviceHash: string, userCode: string, challenge: string, now: int) {
    && r.status == Pending && r.deviceHash == deviceHash && r.userCode == userCode && r.challenge == challenge
    && r.expiresMs == now + 600000 && r.nextPollMs <= 0
  }

  /** Of the other requests those are left that have not expired, as they were. */
  ghost predicate OthersLive(before: Requests, now: int, id: RequestId, after: Requests) {
    forall i :: i != id ==>
      Lookup(after, i) == if i in before && before[i].expiresMs > now then Some(before[i]) else None
  }

  lemma LiveOthers(requests: Requests, now: int, id: RequestId, row: Request)
    ensures OthersLive(requests, now, id, Live(requests, now)[id := row])
  {
  }

  /** The end of the life an approval gives: thirty days, or the approving key's own end if sooner. */
  function Grantable(keys: Keys, keyId: KeyId, now: int): int {
    if keyId != "" && keyId in keys && 0 < keys[keyId].expiresMs < now + KEY_LIFETIME_MS
    then keys[keyId].expiresMs else now + KEY_LIFETIME_MS
  }

  /** The life of the key a grant yields. */
  function Expiry(keys: Keys, r: Request): int {
    if r.approverKeyId in keys && r.approverKeyId != "" && 0 < keys[r.approverKeyId].expiresMs < r.keyExpiresMs
    then keys[r.approverKeyId].expiresMs else r.keyExpiresMs
  }

  /** A poll that reaches the row: it has the verifier, the row lives, and it is not too soon. */
  predicate Reaches(s256: Digest, r: Request, verifier: string, now: int) {
    s256(verifier) == r.challenge && r.nextPollMs <= now < r.expiresMs
  }

  /** When a poll yields a key. */
  predicate Exchangeable(s256: Digest, keys: Keys, r: Request, verifier: string, bootstrapHash: string, now: int) {
    && Reaches(s256, r, verifier, now) && r.status.Approved? && now < r.keyExpiresMs
    && if r.approverKeyId != "" then KeyUsable(keys, r.approverKeyId, now) else r.approverHash == bootstrapHash
  }

  /** The row after a decision. */
  function DecidedRow(keys: Keys, r: Request, deny: bool, identity: Identity, bootstrapHash: string, now: int)
    : Request
  {
    r.(status := if deny then Denied else Approved, approverKeyId := identity.keyId,
       approverHash := if identity.keyId == "" then bootstrapHash else "",
       keyExpiresMs := Grantable(keys, identity.keyId, now))
  }

  function DecisionEvent(keys: Keys, grant: nat, id: RequestId, code: string, deny: bool, identity: Identity,
                         bootstrapHash: string, now: int): Event {
    if deny then Refusal(grant)
    else Approval(grant, now, id, code, ApproverOf(keys, identity.keyId, bootstrapHash))
  }

  /** What a poll of row `id` answers, and the row it leaves. */
  ghost predicate Polled(s256: Digest, keys: Keys, r: Request, verifier: string, bootstrapHash: string, now: int,
                         newKey: KeyId, p: Option<Poll>, after: Request) {
    && (p == Some(Complete(newKey, Expiry(keys, r))) <==>
          Exchangeable(s256, keys, r, verifier, bootstrapHash, now) && newKey !in keys)
    && (IsComplete(p) ==> p.value == Complete(newKey, Expiry(keys, r)) && after == r.(status := Consumed))
    && (p == None ==> newKey in keys && after == r)
    && (!Reaches(s256, r, verifier, now) ==> after == r)
    && (r.status.Pending? && Reaches(s256, r, verifier, now) ==>
          p == Some(PollPending) && after == r.(nextPollMs := now + POLL_INTERVAL_MS))
    && (r.status.Approved? && Reaches(s256, r, verifier, now) &&
        !Exchangeable(s256, keys, r, verifier, bootstrapHash, now) ==>
          p == Some(PollDenied) && after == r.(status := Denied))
    && (r.status.Denied? || r.status.Consumed? ==> after == r && (p == Some(PollDenied) || p == Some(PollExpired)))
  }

  predicate IsComplete(p: Option<Poll>) {
    p.Some? && p.value.Complete?
  }

  class MetadataStore {
    /** The stored form of a secret, and the challenge of a verifier. */
    const hash: Digest
    const s256: Digest
    var requests: Requests
    var keys: Keys
    ghost var trace: Trace

    ghost predicate Valid()
      reads this
    {
      Sound(s256, trace, requests, keys)
    }

    constructor (hash: Digest, s256: Digest)
      ensures Valid() && requests == map[] && keys == map[] && trace == Trace([], map[], map[], map[], 0)
      ensures this.hash == hash && this.s256 == s256
    {
      this.hash, this.s256 := hash, s256;
      requests, keys, trace := map[], map[], Trace([], map[], map[], map[], 0);
    }

    /** Commits a transaction. */
    method Commit(rows: Requests, newKeys: Keys, ghost newTrace: Trace)
      requires Sound(s256, newTrace, rows, newKeys)
      modifies this`requests, this`keys, this`trace
      ensures Valid() && requests == rows && keys == newKeys && trace == newTrace
    {
      requests, keys, trace := rows, newKeys, newTrace;
    }

    method CreateKey(id: KeyId, expiresMs: int) returns (ok: bool)
      requires Valid()
      modifies this`requests, this`keys, this`trace
      ensures Valid() && ok == (id !in old(keys)) && requests == old(requests)
      ensures keys == if ok then old(keys)[id := Key(expiresMs, false)] else old(keys)
      ensures trace == if ok then old(trace).With(Created(id)) else old(trace)
    {
      ok := id !in keys;
      if ok {
        KeyCreated(s256, trace, requests, keys, id, expiresMs);
        Commit(requests, keys[id := Key(expiresMs, false)], trace.With(Created(id)));
      }
    }

    method RevokeKey(id: KeyId) returns (ok: bool)
      requires Valid()
      modifies this`requests, this`keys, this`trace
      ensures Valid() && ok == (id in old(keys)) && requests == old(requests)
      ensures keys == if ok then old(keys)[id := old(keys)[id].(revoked := true)] else old(keys)
      ensures trace == if ok then old(trace).With(Revoked(id)) else old(trace)
    {
      ok := id in keys;
      if ok {
        KeyRevoked(s256, trace, requests, keys, id);
        Commit(requests, keys[id := keys[id].(revoked := true)], trace.With(Revoked(id)));
      }
    }

    /** Stores a new request after dropping the expired ones; the identifiers are random. */
    method Start(id: RequestId, deviceCode: string, userCode: string, challenge: string, now: nat)
      returns (r: Result<int, StartError>)
      requires Valid()
      modifies this`requests, this`keys, this`trace
      ensures Valid() && keys == old(keys)
      ensures var live := Live(old(requests), now);
              && (r == Err(Capacity) <==> |live| >= MAX_OUTSTANDING)
              && (r == Err(Storage) <==>
                    && |live| < MAX_OUTSTANDING
                    && (id in live || exists i :: i in live && live[i].deviceHash == hash(deviceCode)))
              && (r.Err? ==> requests == old(requests) && trace == old(trace))
              && (r.Ok? ==> r.value == now + LIFETIME_MS &&
                            var row := NewRequest(hash(deviceCode), userCode, challenge, now);
                            requests == live[id := row] && trace == old(trace).Starting(id, row, now))
      ensures r.Ok? ==> id in requests && OpensFor(requests[id], hash(deviceCode), userCode, challenge, now)
      ensures r.Ok? ==> OthersLive(old(requests), now, id, requests)
    {
      var live := Live(requests, now);
      if |live| >= MAX_OUTSTANDING {
        return Err(Capacity);
      }
      if id in live || exists i :: i in live && live[i].deviceHash == hash(deviceCode) {
        return Err(Storage);
      }
      LiveOthers(requests, now, id, NewRequest(hash(deviceCode), userCode, challenge, now));
      Insert(id, NewRequest(hash(deviceCode), userCode, challenge, now), now, live);
      return Ok(now + LIFETIME_MS);
    }

    method Insert(id: RequestId, row: Request, now: nat, live: Requests)
      requires Valid() && live == Live(requests, now) && |live| < MAX_OUTSTANDING && id !in live
      requires row.status.Pending? && row.expiresMs == now + LIFETIME_MS
      requires forall i :: i in live ==> live[i].deviceHash != row.deviceHash
      modifies this`requests, this`keys, this`trace
      ensures Valid() && requests == live[id := row] && keys == old(keys)
      ensures trace == old(trace).Starting(id, row, now)
    {
      RequestStarted(s256, trace, requests, keys, live, id, row, now);
      Commit(live[id := row], keys, trace.Starting(id, row, now));
    }

    /** The life an approver can give a key, and the secret an operator approves with. */
    method Authority(identity: Identity, bootstrapHash: string, now: nat) returns (r: Option<(int, string)>)
      ensures r.Some? <==> if identity.keyId != "" then KeyUsable(keys, identity.keyId, now)
                           else identity.subject == "operator"
      ensures r.Some? ==> r.value.0 == Grantable(keys, identity.keyId, now)
      ensures r.Some? ==> r.value.1 == if identity.keyId == "" then bootstrapHash else ""
    {
      var expiry := now + KEY_LIFETIME_MS;
      if identity.keyId != "" {
        if !KeyUsable(keys, identity.keyId, now) {
          return None;
        }
        var parentExpiry := keys[identity.keyId].expiresMs;
        if parentExpiry > 0 && parentExpiry < expiry {
          expiry := parentExpiry;
        }
        return Some((expiry, ""));
      }
      return if identity.subject == "operator" then Some((expiry, bootstrapHash)) else None;
    }

    method Decide(id: RequestId, code: string, deny: bool, identity: Identity, bootstrapHash: string, now: nat)
      returns (d: Decision)
      requires Valid()
      modifies this`requests, this`keys, this`trace
      ensures Valid() && keys == old(keys)
      ensures d.Decided? <==>
                && id in old(requests) && now < old(requests)[id].expiresMs && old(requests)[id].status.Pending?
                && code == old(requests)[id].userCode && MayDecide(keys, identity, now)
      ensures d.Decided? ==>
                && d.status == (if deny then Denied else Approved)
                && requests == old(requests)[id := DecidedRow(keys, old(requests)[id], deny, identity, bootstrapHash,
                                                              now)]
                && trace == old(trace).With(
                     DecisionEvent(keys, old(trace).grants[id], id, code, deny, identity, bootstrapHash, now))
      ensures !d.Decided? ==> requests == old(requests) && trace == old(trace)
    {
      if !identity.thisStore || identity.subject == "" {
        return Unauthorized;
      }
      if id !in requests || requests[id].expiresMs <= now {
        return DecisionExpired;
      }
      var request := requests[id];
      if !request.status.Pending? {
        return Conflict;
      }
      if code != request.userCode {
        return InvalidCode;
      }
      var authority := Authority(identity, bootstrapHash, now);
      if authority.None? {
        return Unauthorized;
      }
      var status := if deny then Denied else Approved;
      var row := request.(status := status, approverKeyId := identity.keyId, approverHash := authority.value.1,
                          keyExpiresMs := authority.value.0);
      RequestDecided(s256, trace, requests, keys, id, deny, identity, bootstrapHash, now);
      Commit(requests[id := row], keys,
             trace.With(DecisionEvent(keys, trace.grants[id], id, code, deny, identity, bootstrapHash, now)));
      return Decided(status);
    }

    /** Polls with the device code; `row` is the one request of that device, if there is one. The
        verifier is checked before anything changes. */
    method Exchange(deviceCode: string, verifier: string, bootstrapHash: string, now: nat, newKey: KeyId)
      returns (p: Option<Poll>, ghost row: Option<RequestId>)
      requires Valid()
      modifies this`requests, this`keys, this`trace
      ensures Valid()
      ensures row.Some? ==> row.value in old(requests) &&
                            forall id :: id in old(requests) ==>
                              (old(requests)[id].deviceHash == hash(deviceCode) <==> id == row.value)
      ensures row.None? ==> forall id :: id in old(requests) ==> old(requests)[id].deviceHash != hash(deviceCode)
      ensures row.None? ==> p == Some(PollExpired) && requests == old(requests)
      ensures row.Some? ==> row.value in requests && requests == old(requests)[row.value := requests[row.value]]
      ensures row.Some? ==> Polled(s256, old(keys), old(requests)[row.value], verifier, bootstrapHash, now, newKey, p,
                                   requests[row.value])
      ensures IsComplete(p) ==>
                && row.Some? && keys == old(keys)[newKey := Key(p.value.expiresMs, false)]
                && trace == old(trace).With(Issued(old(trace).grants[row.value], now, hash(deviceCode), verifier,
                                                   bootstrapHash, newKey, p.value.expiresMs))
      ensures !IsComplete(p) ==> keys == old(keys) && trace == old(trace)
    {
      if id :| id in requests && requests[id].deviceHash == hash(deviceCode) {
        OneRowPerDevice(requests, trace.devices, id);
        p := ExchangeRow(id, verifier, bootstrapHash, now, newKey);
        row := Some(id);
      } else {
        p, row := Some(PollExpired), None;
      }
    }

    method ExchangeRow(id: RequestId, verifier: string, bootstrapHash: string, now: nat, newKey: KeyId)
      returns (p: Option<Poll>)
      requires Valid() && id in requests
      modifies this`requests, this`keys, this`trace
      ensures Valid() && id in requests && requests == old(requests)[id := requests[id]]
      ensures Polled(s256, old(keys), old(requests)[id], verifier, bootstrapHash, now, newKey, p, requests[id])
      ensures IsComplete(p) ==>
                && keys == old(keys)[newKey := Key(p.value.expiresMs, false)]
                && trace == old(trace).With(Issued(old(trace).grants[id], now, old(requests)[id].deviceHash, verifier,
                                                   bootstrapHash, newKey, p.value.expiresMs))
      ensures !IsComplete(p) ==> keys == old(keys) && trace == old(trace)
    {
      var request := requests[id];
      if s256(verifier) != request.challenge {
        return Some(PollDenied);
      }
      if request.expiresMs <= now {
        return Some(PollExpired);
      }
      if request.status.Denied? || request.status.Consumed? {
        return Some(PollDenied);
      }
      if request.nextPollMs > now {
        return Some(PollPending);
      }
      if request.status.Pending? {
        Touch(id, request.(nextPollMs := now + POLL_INTERVAL_MS));
        return Some(PollPending);
      }
      p := IssueOrDeny(id, verifier, bootstrapHash, now, newKey);
    }

    /** The approval of a row is checked again before a key is issued on it. */
    method IssueOrDeny(id: RequestId, verifier: string, bootstrapHash: string, now: nat, newKey: KeyId)
      returns (p: Option<Poll>)
      requires Valid() && id in requests && requests[id].status.Approved? && Reaches(s256, requests[id], verifier, now)
      modifies this`requests, this`keys, this`trace
      ensures Valid()
      ensures !Exchangeable(s256, old(keys), old(requests)[id], verifier, bootstrapHash, now) ==>
                && p == Some(PollDenied) && requests == old(requests)[id := old(requests)[id].(status := Denied)]
                && keys == old(keys) && trace == old(trace)
      ensures Exchangeable(s256, old(keys), old(requests)[id], verifier, bootstrapHash, now) && newKey in old(keys) ==>
                p == None && requests == old(requests) && keys == old(keys) && trace == old(trace)
      ensures Exchangeable(s256, old(keys), old(requests)[id], verifier, bootstrapHash, now) && newKey !in old(keys) ==>
                && p == Some(Complete(newKey, Expiry(old(keys), old(requests)[id])))
                && requests == old(requests)[id := old(requests)[id].(status := Consumed)]
                && keys == old(keys)[newKey := Key(p.value.expiresMs, false)]
                && trace == old(trace).With(Issued(old(trace).grants[id], now, old(requests)[id].deviceHash, verifier,
                                                   bootstrapHash, newKey, p.value.expiresMs))
    {
      var request := requests[id];
      var valid, expiry := ApprovalHolds(request, bootstrapHash, now);
      if !valid {
        Touch(id, request.(status := Denied));
        return Some(PollDenied);
      }
      if newKey in keys {
        return None;
      }
      Issue(id, verifier, bootstrapHash, now, newKey, expiry);
      return Some(Complete(newKey, expiry));
    }

    /** Whether the approval of a row still holds, and for how long. */
    method ApprovalHolds(request: Request, bootstrapHash: string, now: nat) returns (valid: bool, expiry: int)
      ensures valid <==> now < request.keyExpiresMs &&
                         if request.approverKeyId != "" then KeyUsable(keys, request.approverKeyId, now)
                         else request.approverHash == bootstrapHash
      ensures valid ==> expiry == Expiry(keys, request)
    {
      expiry := request.keyExpiresMs;
      valid := expiry > now;
      if request.approverKeyId != "" {
        valid := valid && KeyUsable(keys, request.approverKeyId, now);
        if valid && keys[request.approverKeyId].expiresMs > 0 && keys[request.approverKeyId].expiresMs < expiry {
          expiry := keys[request.approverKeyId].expiresMs;
        }
      } else {
        valid := valid && request.approverHash == bootstrapHash;
      }
    }

    /** Changes a row's poll time, or denies it. */
    method Touch(id: RequestId, row: Request)
      requires Valid() && id in requests
      requires row == requests[id].(nextPollMs := row.nextPollMs) || row == requests[id].(status := Denied)
      modifies this`requests, this`keys, this`trace
      ensures Valid() && requests == old(requests)[id := row] && keys == old(keys) && trace == old(trace)
    {
      RequestTouched(s256, trace, requests, keys, id, row);
      Commit(requests[id := row], keys, trace);
    }

    method Issue(id: RequestId, verifier: string, bootstrapHash: string, now: nat, newKey: KeyId, expiry: int)
      requires Valid() && id in requests && newKey !in keys
      requires Exchangeable(s256, keys, requests[id], verifier, bootstrapHash, now)
      requires expiry == Expiry(keys, requests[id])
      modifies this`requests, this`keys, this`trace
      ensures Valid() && requests == old(requests)[id := old(requests)[id].(status := Consumed)]
      ensures keys == old(keys)[newKey := Key(expiry, false)]
      ensures trace == old(trace).With(Issued(old(trace).grants[id], now, old(requests)[id].deviceHash, verifier,
                                              bootstrapHash, newKey, expiry))
    {
      ghost var e := Issued(trace.grants[id], now, requests[id].deviceHash, verifier, bootstrapHash, newKey, expiry);
      KeyIssued(s256, trace, requests, keys, id, e);
      Commit(requests[id := requests[id].(status := Consumed)], keys[newKey := Key(expiry, false)], trace.With(e));
    }
  }

  /** The device hash is unique among the rows, so a poll has one row. */
  lemma OneRowPerDevice(requests: Requests, devices: map<string, RequestId>, id: RequestId)
    requires DevicesTied(requests, devices) && id in requests
    ensures forall i :: i in requests && requests[i].deviceHash == requests[id].deviceHash ==> i == id
  {
    forall i | i in requests && requests[i].deviceHash == requests[id].deviceHash ensures i == id {
      assert Lookup(devices, requests[i].deviceHash) == Some(i);
    }
  }

  // ---- Every transaction keeps the rows sound -------------------------------------

  lemma LawfulSnoc(s256: Digest, history: History, e: Event)
    requires Lawful(s256, history) && Justified(s256, history, e)
    ensures Lawful(s256, history + [e])
  {
    assert (history + [e])[..|history|] == history;
  }

  lemma KeyCreated(s256: Digest, t: Trace, requests: Requests, keys: Keys, id: KeyId, expiresMs: int)
    requires Sound(s256, t, requests, keys) && id !in keys
    ensures Sound(s256, t.With(Created(id)), requests, keys[id := Key(expiresMs, false)])
  {
    assert KeyTied(t.history, keys, id);
    LawfulSnoc(s256, t.history, Created(id));
    KeyCreatedKeeps(t, requests, keys, id, expiresMs);
  }

  lemma KeyRevoked(s256: Digest, t: Trace, requests: Requests, keys: Keys, id: KeyId)
    requires Sound(s256, t, requests, keys) && id in keys
    ensures Sound(s256, t.With(Revoked(id)), requests, keys[id := keys[id].(revoked := true)])
  {
    assert KeyTied(t.history, keys, id);
    LawfulSnoc(s256, t.history, Revoked(id));
    KeyRevokedKeeps(t, requests, keys, id);
  }

  lemma StartIsLawful(s256: Digest, t: Trace, requests: Requests, keys: Keys, e: Event)
    requires Lawful(s256, t.history) && Tied(t, requests, keys) && e.Started? && e.grant == t.nextGrant
    ensures Lawful(s256, t.history + [e])
  {
    forall s | s in t.history && s.Started? ensures s.grant < e.grant {
      assert EventTied(t, keys, s);
    }
    LawfulSnoc(s256, t.history, e);
  }

  lemma RequestStarted(s256: Digest, t: Trace, requests: Requests, keys: Keys, live: Requests,
                       id: RequestId, row: Request, now: int)
    requires Sound(s256, t, requests, keys) && |live| < MAX_OUTSTANDING && id !in live
    requires live.Keys <= requests.Keys && forall i :: i in live ==> live[i] == requests[i]
    requires row.status.Pending? && row.expiresMs == now + LIFETIME_MS
    requires forall i :: i in live ==> live[i].deviceHash != row.deviceHash
    ensures Sound(s256, t.Starting(id, row, now), live[id := row], keys)
  {
    var t', rows := t.Starting(id, row, now), live[id := row];
    assert Lawful(s256, t'.history) by {
      StartIsLawful(s256, t, requests, keys,
                    Started(t.nextGrant, now, id, row.deviceHash, row.challenge, row.userCode));
    }
    assert Tied(t', rows, keys) by {
      StartedKeeps(t, requests, keys, live, id, row, now);
    }
    assert DevicesTied(rows, t'.devices) && |rows| <= MAX_OUTSTANDING by {
      InsertedDevice(requests, t.devices, live, id, row);
    }
  }

  lemma RequestDecided(s256: Digest, t: Trace, requests: Requests, keys: Keys, id: RequestId, deny: bool,
                       identity: Identity, bootstrapHash: string, now: int)
    requires Sound(s256, t, requests, keys) && id in requests && requests[id].status.Pending?
    requires now < requests[id].expiresMs && MayDecide(keys, identity, now)
    ensures var row := DecidedRow(keys, requests[id], deny, identity, bootstrapHash, now);
            var e := DecisionEvent(keys, t.grants[id], id, requests[id].userCode, deny, identity, bootstrapHash, now);
            Sound(s256, t.With(e), requests[id := row], keys)
  {
    var row := DecidedRow(keys, requests[id], deny, identity, bootstrapHash, now);
    var e := DecisionEvent(keys, t.grants[id], id, requests[id].userCode, deny, identity, bootstrapHash, now);
    GrantIsKnown(t, requests, keys, id);
    assert Justified(s256, t.history, e) by {
      assert KeyTied(t.history, keys, identity.keyId);
      DecisionIsJustified(s256, t.history, keys, t.grants[id], id, requests[id], e);
    }
    LawfulSnoc(s256, t.history, e);
    DecidedKeeps(t, requests, keys, id, row, e);
    RowReplaced(requests, t.devices, id, row);
  }

  lemma RequestTouched(s256: Digest, t: Trace, requests: Requests, keys: Keys, id: RequestId, row: Request)
    requires Sound(s256, t, requests, keys) && id in requests
    requires row == requests[id].(nextPollMs := row.nextPollMs) || row == requests[id].(status := Denied)
    ensures Sound(s256, t, requests[id := row], keys)
  {
    TouchedKeeps(t, requests, keys, id, row);
    RowReplaced(requests, t.devices, id, row);
  }

  lemma KeyIssued(s256: Digest, t: Trace, requests: Requests, keys: Keys, id: RequestId, e: Event)
    requires Sound(s256, t, requests, keys) && id in requests
    requires e.Issued? && e.grant == t.grants[id] && e.deviceHash == requests[id].deviceHash
    requires e.at >= 0 && e.key !in keys && e.expiresMs == Expiry(keys, requests[id])
    requires Exchangeable(s256, keys, requests[id], e.verifier, e.bootstrapHash, e.at)
    ensures Sound(s256, t.With(e), requests[id := requests[id].(status := Consumed)],
                  keys[e.key := Key(e.expiresMs, false)])
  {
    var request := requests[id];
    GrantIsKnown(t, requests, keys, id);
    assert Justified(s256, t.history, e) by {
      assert KeyTied(t.history, keys, e.key) && KeyTied(t.history, keys, request.approverKeyId);
      IssueIsJustified(s256, t.history, keys, e.grant, id, request, e);
    }
    LawfulSnoc(s256, t.history, e);
    IssuedKeeps(t, requests, keys, id, e);
    RowReplaced(requests, t.devices, id, request.(status := Consumed));
  }

  lemma RowReplaced(requests: Requests, devices: map<string, RequestId>, id: RequestId, row: Request)
    requires DevicesTied(requests, devices) && id in requests && row.deviceHash == requests[id].deviceHash
    ensures DevicesTied(requests[id := row], devices) && |requests[id := row]| == |requests|
  {
    assert requests[id := row].Keys == requests.Keys;
  }

  lemma GrantIsKnown(t: Trace, requests: Requests, keys: Keys, id: RequestId)
    requires Tied(t, requests, keys) && id in requests
    ensures t.grants[id] < t.nextGrant && RowTied(t.history, keys, t.grants[id], id, requests[id])
    ensures Lookup(t.holders, t.grants[id]) == Some(id)
  {
    assert RowAt(t, requests, keys, id);
    var s :| StartOf(t.history, t.grants[id], id, requests[id], s);
    assert EventTied(t, keys, s);
  }

  lemma InsertedDevice(requests: Requests, devices: map<string, RequestId>, live: Requests, id: RequestId, row: Request)
    requires DevicesTied(requests, devices) && (forall i :: i in live ==> i in requests && live[i] == requests[i])
    requires id !in live && forall i :: i in live ==> live[i].deviceHash != row.deviceHash
    ensures DevicesTied(live[id := row], devices[row.deviceHash := id]) && |live[id := row]| == |live| + 1
  {
    assert live[id := row].Keys == live.Keys + {id};
  }

  lemma DecisionIsJustified(s256: Digest, history: History, keys: Keys, grant: nat, id: RequestId, r: Request, e: Event)
    requires RowTied(history, keys, grant, id, r) && r.status.Pending?
    requires match e
             case Approval(g, at, i, code, approver) =>
               g == grant && i == id && at < r.expiresMs && code == r.userCode &&
               (approver.ByKey? ==> Revoked(approver.id) !in history && Within(at, approver.expiresMs))
             case Refusal(g) => g == grant
             case _ => false
    ensures Justified(s256, history, e)
  {
    var s :| StartOf(history, grant, id, r, s);
    if e.Approval? {
      assert ApprovedOnce(history, e, s);
    }
  }

  lemma IssueIsJustified(s256: Digest, history: History, keys: Keys, grant: nat, id: RequestId, r: Request, e: Event)
    requires e.Issued? && e.grant == grant && e.deviceHash == r.deviceHash
    requires e.at >= 0 && e.key !in keys && e.expiresMs == Expiry(keys, r)
    requires RowTied(history, keys, grant, id, r)
    requires KeyTied(history, keys, e.key) && KeyTied(history, keys, r.approverKeyId)
    requires Exchangeable(s256, keys, r, e.verifier, e.bootstrapHash, e.at)
    ensures Justified(s256, history, e)
  {
    var s :| StartOf(history, grant, id, r, s);
    var a :| ApprovalTied(history, keys, grant, r, a);
    assert IssuedFor(s256, history, e, s, a);
  }

  // ---- Events keep the rows tied -----------------------------------------------------

  lemma KeyCreatedKeeps(t: Trace, requests: Requests, keys: Keys, id: KeyId, expiresMs: int)
    requires Tied(t, requests, keys) && id !in keys
    ensures Tied(t.With(Created(id)), requests, keys[id := Key(expiresMs, false)])
  {
    var keys' := keys[id := Key(expiresMs, false)];
    OthersKeep(t, requests, keys, keys', Created(id), None);
    forall key ensures KeyTied(t.history + [Created(id)], keys', key) {
      assert KeyTied(t.history, keys, key) && KeyTied(t.history, keys, id);
      KeyMadeSnoc(t.history, Created(id), key);
    }
  }

  lemma KeyRevokedKeeps(t: Trace, requests: Requests, keys: Keys, id: KeyId)
    requires Tied(t, requests, keys) && id in keys
    ensures Tied(t.With(Revoked(id)), requests, keys[id := keys[id].(revoked := true)])
  {
    var keys' := keys[id := keys[id].(revoked := true)];
    OthersKeep(t, requests, keys, keys', Revoked(id), None);
    forall key ensures KeyTied(t.history + [Revoked(id)], keys', key) {
      assert KeyTied(t.history, keys, key) && KeyTied(t.history, keys, id);
      KeyMadeSnoc(t.history, Revoked(id), key);
    }
  }

  lemma KeyMadeSnoc(history: History, e: Event, key: KeyId)
    ensures KeyMade(history + [e], key) <==> KeyMade(history, key) || ((e.Created? || e.Issued?) && e.key == key)
  {
    assert e in history + [e];
    if x :| x in history && (x.Created? || x.Issued?) && x.key == key {
      assert x in history + [e];
    }
  }

  /** No key's expiry changes and no key is dropped. */
  ghost predicate KeysStay(keys: Keys, keys': Keys) {
    forall k :: k in keys ==> k in keys' && keys'[k].expiresMs == keys[k].expiresMs
  }

  /** An event of another grant, or of no grant, leaves a row's tie. */
  lemma RowKeeps(history: History, keys: Keys, keys': Keys, grant: nat, id: RequestId, r: Request, e: Event)
    requires RowTied(history, keys, grant, id, r) && KeysStay(keys, keys')
    requires (e.Approval? || e.Refusal? || e.Issued?) ==> e.grant != grant
    ensures RowTied(history + [e], keys', grant, id, r)
  {
    var s :| StartOf(history, grant, id, r, s);
    assert StartOf(history + [e], grant, id, r, s);
    if r.status.Approved? {
      var a :| ApprovalTied(history, keys, grant, r, a);
      assert ApprovalTied(history + [e], keys', grant, r, a);
    }
  }

  /** An event leaves the ties of every row but the one it is about, and of every past event. */
  lemma OthersKeep(t: Trace, requests: Requests, keys: Keys, keys': Keys, e: Event, about: Option<RequestId>)
    requires Tied(t, requests, keys) && KeysStay(keys, keys') && !e.Started?
    requires about.Some? ==> about.value in requests
    requires e.Approval? || e.Refusal? || e.Issued? ==> about.Some? && e.grant == t.grants[about.value]
    requires e.Approval? && e.approver.ByKey? ==>
               e.approver.id in keys' && keys'[e.approver.id].expiresMs == e.approver.expiresMs
    ensures forall id :: Some(id) != about ==> RowAt(t.With(e), requests, keys', id)
    ensures forall x :: EventTied(t.With(e), keys', x)
  {
    forall id | Some(id) != about ensures RowAt(t.With(e), requests, keys', id) {
      if id in requests {
        GrantIsKnown(t, requests, keys, id);
        if about.Some? { GrantIsKnown(t, requests, keys, about.value); }
        RowKeeps(t.history, keys, keys', t.grants[id], id, requests[id], e);
      }
    }
    forall x ensures EventTied(t.With(e), keys', x) {
      assert EventTied(t, keys, x);
      if about.Some? { GrantIsKnown(t, requests, keys, about.value); }
    }
  }

  lemma StartedKeeps(t: Trace, requests: Requests, keys: Keys, live: Requests, id: RequestId, row: Request, now: int)
    requires Tied(t, requests, keys)
    requires live.Keys <= requests.Keys && (forall i :: i in live ==> live[i] == requests[i]) && id !in live
    requires row.status.Pending? && row.expiresMs == now + LIFETIME_MS
    ensures Tied(t.Starting(id, row, now), live[id := row], keys)
  {
    var e := Started(t.nextGrant, now, id, row.deviceHash, row.challenge, row.userCode);
    var t', rows := t.Starting(id, row, now), live[id := row];
    forall r ensures RowAt(t', rows, keys, r) {
      if r == id {
        FirstRow(t, requests, keys, id, row, e);
      } else if r in live {
        GrantIsKnown(t, requests, keys, r);
        RowKeeps(t.history, keys, keys, t.grants[r], r, live[r], e);
      }
    }
    forall x ensures EventTied(t', keys, x) {
      assert EventTied(t, keys, x);
    }
    forall key ensures KeyTied(t'.history, keys, key) {
      assert KeyTied(t.history, keys, key);
      KeyMadeSnoc(t.history, e, key);
    }
  }

  lemma FirstRow(t: Trace, requests: Requests, keys: Keys, id: RequestId, row: Request, e: Event)
    requires Tied(t, requests, keys) && row.status.Pending?
    requires e == Started(t.nextGrant, row.expiresMs - LIFETIME_MS, id, row.deviceHash, row.challenge, row.userCode)
    ensures RowTied(t.history + [e], keys, t.nextGrant, id, row)
  {
    assert StartOf(t.history + [e], t.nextGrant, id, row, e);
    forall x | x in t.history + [e] && (x.Approval? || x.Refusal? || x.Issued?) ensures x.grant != t.nextGrant {
      assert EventTied(t, keys, x);
    }
  }

  lemma DecidedKeeps(t: Trace, requests: Requests, keys: Keys, id: RequestId, row: Request, e: Event)
    requires Tied(t, requests, keys) && id in requests && requests[id].status.Pending?
    requires (e.Approval? || e.Refusal?) && e.grant == t.grants[id] < t.nextGrant
    requires row.status == (if e.Approval? then Approved else Denied)
    requires row == requests[id].(status := row.status, approverKeyId := row.approverKeyId,
                                  approverHash := row.approverHash, keyExpiresMs := row.keyExpiresMs)
    requires e.Approval? ==> ApprovalTied(t.history + [e], keys, t.grants[id], row, e)
    ensures Tied(t.With(e), requests[id := row], keys)
  {
    OthersKeep(t, requests, keys, keys, e, Some(id));
    GrantIsKnown(t, requests, keys, id);
    var s :| StartOf(t.history, t.grants[id], id, requests[id], s);
    assert StartOf(t.history + [e], t.grants[id], id, row, s);
    RowsMatch(t.With(e), requests, requests[id := row], keys, id);
    forall key ensures KeyTied(t.history + [e], keys, key) {
      assert KeyTied(t.history, keys, key);
      KeyMadeSnoc(t.history, e, key);
    }
  }

  lemma RowsMatch(t: Trace, requests: Requests, rows: Requests, keys: Keys, id: RequestId)
    requires forall r :: r != id ==> RowAt(t, requests, keys, r)
    requires id in rows && rows == requests[id := rows[id]] && RowAt(t, rows, keys, id)
    ensures forall r :: RowAt(t, rows, keys, r)
  {
    forall r ensures RowAt(t, rows, keys, r) {
      if r != id { assert RowAt(t, requests, keys, r); }
    }
  }

  lemma TouchedKeeps(t: Trace, requests: Requests, keys: Keys, id: RequestId, row: Request)
    requires Tied(t, requests, keys) && id in requests
    requires row == requests[id].(nextPollMs := row.nextPollMs) || row == requests[id].(status := Denied)
    ensures Tied(t, requests[id := row], keys)
  {
    GrantIsKnown(t, requests, keys, id);
    var s :| StartOf(t.history, t.grants[id], id, requests[id], s);
    assert StartOf(t.history, t.grants[id], id, row, s);
    if row.status.Approved? {
      var a :| ApprovalTied(t.history, keys, t.grants[id], requests[id], a);
      assert ApprovalTied(t.history, keys, t.grants[id], row, a);
    }
    RowsMatch(t, requests, requests[id := row], keys, id);
  }

  lemma IssuedKeeps(t: Trace, requests: Requests, keys: Keys, id: RequestId, e: Event)
    requires Tied(t, requests, keys) && id in requests
    requires e.Issued? && e.grant == t.grants[id] < t.nextGrant && e.key !in keys
    ensures Tied(t.With(e), requests[id := requests[id].(status := Consumed)], keys[e.key := Key(e.expiresMs, false)])
  {
    var row, keys' := requests[id].(status := Consumed), keys[e.key := Key(e.expiresMs, false)];
    OthersKeep(t, requests, keys, keys', e, Some(id));
    GrantIsKnown(t, requests, keys, id);
    var s :| StartOf(t.history, t.grants[id], id, requests[id], s);
    assert StartOf(t.history + [e], t.grants[id], id, row, s);
    RowsMatch(t.With(e), requests, requests[id := row], keys', id);
    forall key ensures KeyTied(t.history + [e], keys', key) {
      assert KeyTied(t.history, keys, key) && KeyTied(t.history, keys, e.key);
      KeyMadeSnoc(t.history, e, key);
    }
  }
}

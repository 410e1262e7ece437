/**
 Request leases on database clients. A replaced client closes only after every request using it
 has drained. Each method body runs under the registry lock.
 */
module DatabaseLeases {
  import opened Results
  import opened Paths

  type DatabaseId = string

  /** A client handler: `serial` tells apart successive clients of one database. */
  datatype Handler = Handler(serial: nat, id: DatabaseId)

  datatype Lease = Lease(refs: nat, retired: bool, owned: bool)

  datatype Profile = Profile(id: DatabaseId, name: string, url: string, revision: string)

  /** What the registry holds: routes, leases, and how often each client was closed; `outstanding`
      are the leases handed out and not yet released, `created` every client ever made. */
  datatype Book = Book(handlers: map<DatabaseId, Handler>, leases: map<Handler, Lease>, closes: map<Handler, nat>,
                       closed: bool, outstanding: multiset<Handler>, created: set<Handler>)

  function CloseCount(closes: map<Handler, nat>, h: Handler): nat {
    if h in closes then closes[h] else 0
  }

  /** Clients in `pending` are made but neither published nor discarded yet. */
  ghost predicate SoundAt(b: Book, pending: set<Handler>, h: Handler) {
    if h in b.leases then
      && h in b.created && h !in pending && CloseCount(b.closes, h) == 0
      && b.leases[h].owned && b.leases[h].refs == b.outstanding[h]
      && (b.leases[h].retired ==> b.leases[h].refs > 0)
      && (if b.closed then b.leases[h].retired else b.leases[h].retired <==> Lookup(b.handlers, h.id) != Some(h))
    else
      && h !in b.outstanding
      && (b.closed || Lookup(b.handlers, h.id) != Some(h))
      && CloseCount(b.closes, h) == if h in b.created && h !in pending then 1 else 0
  }

  /** References are outstanding leases, every routable client is live, and a client is closed exactly
      once it is neither routable nor leased. */
  ghost predicate Sound(b: Book, pending: set<Handler>) {
    && pending <= b.created
    && (forall h :: SoundAt(b, pending, h))
    && (forall id :: id in b.handlers ==> b.handlers[id].id == id)
  }

  /** After shutdown, once every lease is released, every client has been closed exactly once. */
  lemma AllClosedAfterDrain(b: Book)
    requires Sound(b, {}) && b.closed && b.outstanding == multiset{}
    ensures b.leases == map[] && forall h :: h in b.created ==> CloseCount(b.closes, h) == 1
  {
    forall h ensures h !in b.leases && (h in b.created ==> CloseCount(b.closes, h) == 1) {
      assert SoundAt(b, {}, h);
    }
  }

  /** A closed client was closed once, and is neither leased nor handed to new requests. */
  lemma ClosedMeansUnused(b: Book, h: Handler)
    requires Sound(b, {})
    ensures CloseCount(b.closes, h) <= 1
    ensures CloseCount(b.closes, h) == 1 ==> b.outstanding[h] == 0 && (!b.closed ==> h !in b.handlers.Values)
    ensures !b.closed && h in b.handlers.Values ==> CloseCount(b.closes, h) == 0 && h in b.leases
  {
    assert SoundAt(b, {}, h);
    if h in b.handlers.Values {
      var id :| id in b.handlers && b.handlers[id] == h;
      assert h.id == id;
    }
  }

  predicate ValidDatabaseId(id: DatabaseId) {
    0 < |id| <= 128 &&
    forall i :: 0 <= i < |id| ==>
      var c := id[i]; 'a' <= c <= 'z' || 'A' <= c <= 'Z' || '0' <= c <= '9' || c == '_' || c == '-'
  }

  predicate ValidProfileDefault(profiles: seq<Profile>, defaultId: DatabaseId) {
    if profiles == [] then defaultId == "" else exists i :: 0 <= i < |profiles| && profiles[i].id == defaultId
  }

  ghost function Ids(profiles: seq<Profile>): set<DatabaseId> {
    set i | 0 <= i < |profiles| :: profiles[i].id
  }

  /** The last profile with an identifier. */
  function Existing(profiles: seq<Profile>, id: DatabaseId): Option<Profile> {
    if profiles == [] then None
    else if profiles[|profiles| - 1].id == id then Some(profiles[|profiles| - 1])
    else Existing(profiles[..|profiles| - 1], id)
  }

  lemma TakeIds(profiles: seq<Profile>, i: nat)
    requires i < |profiles|
    ensures Ids(profiles[..i + 1]) == Ids(profiles[..i]) + {profiles[i].id}
    ensures profiles[i].id in Ids(profiles[..i]) <==> exists j :: 0 <= j < i && profiles[j].id == profiles[i].id
  {
    assert profiles[..i + 1] == profiles[..i] + [profiles[i]];
    forall id ensures id in Ids(profiles[..i + 1]) <==> id in Ids(profiles[..i]) + {profiles[i].id} {
      if id in Ids(profiles[..i]) {
        var j :| 0 <= j < i && profiles[..i][j].id == id;
        assert profiles[..i + 1][j].id == id;
      }
      if id == profiles[i].id {
        assert profiles[..i + 1][i].id == id;
      }
    }
    if j :| 0 <= j < i && profiles[j].id == profiles[i].id {
      assert profiles[..i][j].id == profiles[i].id;
    }
  }

  lemma NormalizedKeeps(snapshot: seq<Profile>, normalized: seq<Profile>, defaultId: DatabaseId)
    requires |normalized| == |snapshot| && forall i :: 0 <= i < |snapshot| ==> normalized[i].id == snapshot[i].id
    requires ValidProfileDefault(snapshot, defaultId)
    ensures Ids(normalized) == Ids(snapshot) && ValidProfileDefault(normalized, defaultId)
  {
    forall id ensures id in Ids(normalized) <==> id in Ids(snapshot) {
      if i :| 0 <= i < |snapshot| && snapshot[i].id == id { assert normalized[i].id == id; }
      if i :| 0 <= i < |snapshot| && normalized[i].id == id { assert snapshot[i].id == id; }
    }
    if snapshot != [] {
      var i :| 0 <= i < |snapshot| && snapshot[i].id == defaultId;
      assert normalized[i].id == defaultId;
    }
  }

  function Without(profiles: seq<Profile>, id: DatabaseId): seq<Profile> {
    if profiles == [] then []
    else (if profiles[0].id == id then [] else [profiles[0]]) + Without(profiles[1..], id)
  }

  /** Exactly the other profiles. */
  ghost predicate RestOf(rest: seq<Profile>, profiles: seq<Profile>, id: DatabaseId) {
    forall profile :: profile in rest <==> profile in profiles && profile.id != id
  }

  lemma {:induction false} WithoutIsRest(profiles: seq<Profile>, id: DatabaseId)
    ensures RestOf(Without(profiles, id), profiles, id)
  {
    if profiles != [] {
      WithoutIsRest(profiles[1..], id);
      assert profiles == [profiles[0]] + profiles[1..];
    }
  }

  lemma {:induction false} WithoutIds(profiles: seq<Profile>, id: DatabaseId)
    ensures Ids(Without(profiles, id)) == Ids(profiles) - {id}
  {
    if profiles != [] {
      WithoutIds(profiles[1..], id);
      HeadIds(profiles);
      if profiles[0].id != id {
        HeadIds(Without(profiles, id));
        assert Without(profiles, id)[1..] == Without(profiles[1..], id);
      } else {
        assert Without(profiles, id) == Without(profiles[1..], id);
      }
    }
  }

  lemma HeadIds(profiles: seq<Profile>)
    requires profiles != []
    ensures Ids(profiles) == {profiles[0].id} + Ids(profiles[1..])
  {
    forall id ensures id in Ids(profiles) <==> id in {profiles[0].id} + Ids(profiles[1..]) {
      if i :| 0 <= i < |profiles| && profiles[i].id == id && i > 0 { assert profiles[1..][i - 1].id == id; }
      if i :| 0 <= i < |profiles| - 1 && profiles[1..][i].id == id { assert profiles[i + 1].id == id; }
    }
  }

  lemma StillDefault(profiles: seq<Profile>, id: DatabaseId, defaultId: DatabaseId)
    requires ValidProfileDefault(profiles, defaultId) && id in Ids(profiles) && defaultId != id
    ensures ValidProfileDefault(Without(profiles, id), defaultId)
  {
    WithoutIds(profiles, id);
    assert defaultId in Ids(Without(profiles, id));
  }

  /** The new default after the old one is removed. */
  method SmallestId(profiles: seq<Profile>) returns (id: DatabaseId)
    requires forall i :: 0 <= i < |profiles| ==> profiles[i].id != ""
    ensures ValidProfileDefault(profiles, id)
    ensures forall i :: 0 <= i < |profiles| ==> !StringLess(profiles[i].id, id)
  {
    id := "";
    for i := 0 to |profiles|
      invariant if i == 0 then id == "" else exists j :: 0 <= j < i && profiles[j].id == id
      invariant forall j :: 0 <= j < i ==> !StringLess(profiles[j].id, id)
    {
      forall j | 0 <= j < i {
        StringLessIsOrder(profiles[i].id, id, profiles[j].id);
      }
      StringLessIsOrder(profiles[i].id, profiles[i].id, id);
      if id == "" || StringLess(profiles[i].id, id) {
        id := profiles[i].id;
      }
    }
  }

  /** The configured databases, the default one, and the stored revision. */
  datatype Settings = Settings(profiles: seq<Profile>, defaultId: DatabaseId, revision: int)

  ghost predicate Configured(b: Book, settings: Settings) {
    && b.handlers.Keys == Ids(settings.profiles) && "" !in b.handlers
    && ValidProfileDefault(settings.profiles, settings.defaultId)
  }

  /** Every identifier is to keep its client or get a new one, and every new client is wanted. */
  ghost predicate Routable(handlers: map<DatabaseId, Handler>, next: map<DatabaseId, Handler>, made: set<Handler>) {
    && (forall id :: id in next ==> next[id].id == id && (next[id] in made || Lookup(handlers, id) == Some(next[id])))
    && (forall h :: h in made ==> Lookup(next, h.id) == Some(h))
  }

  ghost predicate Publishable(handlers: map<DatabaseId, Handler>, next: map<DatabaseId, Handler>, settings: Settings,
                              made: set<Handler>) {
    && Routable(handlers, next, made)
    && next.Keys == Ids(settings.profiles) && ValidProfileDefault(settings.profiles, settings.defaultId) && "" !in next
  }

  /** Whether a client can be constructed for a profile, the connection it then uses, and whether
      two profiles share a name or an endpoint. */
  datatype Connections = Connections(connects: Profile -> bool, connection: Profile -> string,
                                     duplicate: (Profile, Profile) -> bool)

  /** The registry as a snapshot meets it. */
  datatype Config = Config(env: Connections, handlers: map<DatabaseId, Handler>, profiles: seq<Profile>) {
    /** An unchanged profile keeps its client. */
    predicate Retained(profile: Profile) {
      profile.id in handlers && Existing(profiles, profile.id) == Some(profile)
    }

    predicate AcceptableAt(snapshot: seq<Profile>, i: nat)
      requires i < |snapshot|
    {
      var profile := snapshot[i];
      && ValidDatabaseId(profile.id) && profile.revision != ""
      && (Retained(profile) || env.connects(profile))
      && forall j :: 0 <= j < i ==> snapshot[j].id != profile.id && !env.duplicate(snapshot[j], profile)
    }

    predicate Acceptable(snapshot: seq<Profile>, newDefault: DatabaseId) {
      ValidProfileDefault(snapshot, newDefault) && forall i :: 0 <= i < |snapshot| ==> AcceptableAt(snapshot, i)
    }

    function Normalized(profile: Profile): Profile {
      if Retained(profile) then profile else profile.(url := env.connection(profile))
    }

    /** The client selected for a profile: the routed one if the profile is unchanged, else a new one. */
    ghost predicate ChosenAt(profile: Profile, next: map<DatabaseId, Handler>, made: set<Handler>) {
      profile.id in next && next[profile.id].id == profile.id &&
      if Retained(profile) then next[profile.id] == handlers[profile.id] else next[profile.id] in made
    }

    /** The first `i` profiles of a snapshot are acceptable and have their clients. */
    ghost predicate Prepared(snapshot: seq<Profile>, i: nat, next: map<DatabaseId, Handler>, normalized: seq<Profile>,
                             made: set<Handler>)
      requires i <= |snapshot|
    {
      && (forall j :: 0 <= j < i ==> AcceptableAt(snapshot, j))
      && |normalized| == i && (forall j :: 0 <= j < i ==> normalized[j] == Normalized(snapshot[j]))
      && next.Keys == Ids(snapshot[..i])
      && (forall j :: 0 <= j < i ==> ChosenAt(snapshot[j], next, made))
      && (forall h :: h in made ==> Lookup(next, h.id) == Some(h))
    }

    lemma PreparedConfigures(snapshot: seq<Profile>, next: map<DatabaseId, Handler>, normalized: seq<Profile>,
                             made: set<Handler>, newDefault: DatabaseId)
      requires Prepared(snapshot, |snapshot|, next, normalized, made) && ValidProfileDefault(snapshot, newDefault)
      ensures next.Keys == Ids(snapshot) == Ids(normalized) && ValidProfileDefault(normalized, newDefault)
      ensures "" !in next
    {
      assert snapshot[..|snapshot|] == snapshot;
      NormalizedKeeps(snapshot, normalized, newDefault);
      forall i | 0 <= i < |snapshot| ensures snapshot[i].id != "" {
        assert AcceptableAt(snapshot, i);
      }
    }

    lemma PreparedIsPublishable(snapshot: seq<Profile>, next: map<DatabaseId, Handler>, normalized: seq<Profile>,
                                made: set<Handler>, newDefault: DatabaseId, revision: int)
      requires Prepared(snapshot, |snapshot|, next, normalized, made) && ValidProfileDefault(snapshot, newDefault)
      ensures next.Keys == Ids(snapshot)
      ensures Publishable(handlers, next, Settings(normalized, newDefault, revision), made)
    {
      PreparedConfigures(snapshot, next, normalized, made, newDefault);
      forall id | id in next ensures next[id].id == id && (next[id] in made || Lookup(handlers, id) == Some(next[id])) {
        var i :| 0 <= i < |snapshot| && snapshot[i].id == id;
        assert ChosenAt(snapshot[i], next, made);
      }
    }

    lemma PrepareStep(snapshot: seq<Profile>, i: nat, next: map<DatabaseId, Handler>, normalized: seq<Profile>,
                      made: set<Handler>, h: Handler)
      requires i < |snapshot| && Prepared(snapshot, i, next, normalized, made) && AcceptableAt(snapshot, i)
      requires h.id == snapshot[i].id && (Retained(snapshot[i]) ==> h == handlers[h.id])
      ensures Prepared(snapshot, i + 1, next[h.id := h], normalized + [Normalized(snapshot[i])],
                       if Retained(snapshot[i]) then made else made + {h})
    {
      TakeIds(snapshot, i);
      var next' := next[h.id := h];
      var made' := if Retained(snapshot[i]) then made else made + {h};
      forall g | g in made' ensures Lookup(next', g.id) == Some(g) {
        if g in made {
          assert Lookup(next, g.id) == Some(g);
          assert g.id in Ids(snapshot[..i]);
        }
      }
      forall j | 0 <= j < i + 1 ensures ChosenAt(snapshot[j], next', made') {
        if j < i {
          assert ChosenAt(snapshot[j], next, made);
        }
      }
    }
  }

  // ---- What a snapshot must be, and what it leaves ----------------------------------

  /** An ASCII letter, digit, underscore or hyphen. */
  predicate PlainCharacter(c: char) {
    var n := c as int;
    48 <= n <= 57 || 65 <= n <= 90 || 97 <= n <= 122 || n == 95 || n == 45
  }

  /** The profile is the one the registry has for its identifier, and is routed. */
  ghost predicate Unaltered(config: Config, profile: Profile) {
    && profile.id in config.handlers
    && exists j :: LastWith(config.profiles, profile.id, j) && config.profiles[j] == profile
  }

  ghost predicate LastWith(profiles: seq<Profile>, id: DatabaseId, j: int) {
    0 <= j < |profiles| && profiles[j].id == id && forall k :: j < k < |profiles| ==> profiles[k].id != id
  }

  ghost predicate ProperProfile(config: Config, profile: Profile) {
    && 0 < |profile.id| <= 128 && (forall c :: c in profile.id ==> PlainCharacter(c)) && profile.revision != ""
    && (Unaltered(config, profile) || config.env.connects(profile))
  }

  /** Every profile has a plain identifier of its own, a revision, and a connection; no two share a name or
      an endpoint; the default is one of them, or empty if there are none. */
  ghost predicate Proper(config: Config, snapshot: seq<Profile>, newDefault: DatabaseId) {
    && (forall i :: 0 <= i < |snapshot| ==> ProperProfile(config, snapshot[i]))
    && (forall i, j :: 0 <= i < j < |snapshot| ==>
          snapshot[i].id != snapshot[j].id && !config.env.duplicate(snapshot[i], snapshot[j]))
    && (if |snapshot| == 0 then newDefault == "" else exists i :: 0 <= i < |snapshot| && snapshot[i].id == newDefault)
  }

  lemma {:induction false} ExistingIsLast(profiles: seq<Profile>, id: DatabaseId, profile: Profile)
    ensures Existing(profiles, id) == Some(profile) <==> exists j :: LastWith(profiles, id, j) && profiles[j] == profile
  {
    if profiles != [] {
      var n := |profiles| - 1;
      var rest := profiles[..n];
      if profiles[n].id == id {
        assert LastWith(profiles, id, n);
        forall j | LastWith(profiles, id, j) ensures j == n {}
      } else {
        ExistingIsLast(rest, id, profile);
        forall j ensures LastWith(profiles, id, j) <==> LastWith(rest, id, j) {
          assert LastWith(rest, id, j) ==> rest[j] == profiles[j];
        }
      }
    }
  }

  lemma RetainedIff(config: Config, profile: Profile)
    ensures config.Retained(profile) <==> Unaltered(config, profile)
  {
    ExistingIsLast(config.profiles, profile.id, profile);
  }

  lemma PlainIdIff(id: DatabaseId)
    ensures ValidDatabaseId(id) <==> 0 < |id| <= 128 && forall c :: c in id ==> PlainCharacter(c)
  {
    if 0 < |id| <= 128 {
      forall i | 0 <= i < |id|
        ensures PlainCharacter(id[i]) <==>
                  'a' <= id[i] <= 'z' || 'A' <= id[i] <= 'Z' || '0' <= id[i] <= '9' || id[i] == '_' || id[i] == '-'
      {
      }
      if forall c :: c in id ==> PlainCharacter(c) {
        forall i | 0 <= i < |id| ensures PlainCharacter(id[i]) {
          assert id[i] in id;
        }
      }
    }
  }

  lemma AcceptableAtIff(config: Config, snapshot: seq<Profile>, i: nat)
    requires i < |snapshot|
    ensures config.AcceptableAt(snapshot, i) <==>
              && ProperProfile(config, snapshot[i])
              && forall j :: 0 <= j < i ==>
                   snapshot[j].id != snapshot[i].id && !config.env.duplicate(snapshot[j], snapshot[i])
  {
    PlainIdIff(snapshot[i].id);
    RetainedIff(config, snapshot[i]);
  }

  /** The snapshots the registry accepts are the proper ones. */
  lemma AcceptableIff(config: Config, snapshot: seq<Profile>, newDefault: DatabaseId)
    ensures config.Acceptable(snapshot, newDefault) <==> Proper(config, snapshot, newDefault)
  {
    forall i | 0 <= i < |snapshot|
      ensures config.AcceptableAt(snapshot, i) <==>
                && ProperProfile(config, snapshot[i])
                && forall j :: 0 <= j < i ==>
                     snapshot[j].id != snapshot[i].id && !config.env.duplicate(snapshot[j], snapshot[i])
    {
      AcceptableAtIff(config, snapshot, i);
    }
  }

  /** An unaltered profile keeps its client; any other gets a new one and its connection is recorded. */
  ghost predicate LeftAt(config: Config, created: set<Handler>, profile: Profile, handlers: map<DatabaseId, Handler>,
                         recorded: Profile) {
    && profile.id in handlers && handlers[profile.id].id == profile.id
    && if Unaltered(config, profile) then handlers[profile.id] == config.handlers[profile.id] && recorded == profile
       else handlers[profile.id] !in created && recorded == profile.(url := config.env.connection(profile))
  }

  ghost predicate Leaves(config: Config, created: set<Handler>, snapshot: seq<Profile>,
                         handlers: map<DatabaseId, Handler>, recorded: seq<Profile>) {
    && |recorded| == |snapshot|
    && forall i :: 0 <= i < |snapshot| ==> LeftAt(config, created, snapshot[i], handlers, recorded[i])
  }

  lemma PreparedLeaves(config: Config, created: set<Handler>, snapshot: seq<Profile>,
                       handlers: map<DatabaseId, Handler>, recorded: seq<Profile>, made: set<Handler>)
    requires made !! created && config.Prepared(snapshot, |snapshot|, handlers, recorded, made)
    ensures Leaves(config, created, snapshot, handlers, recorded)
  {
    forall i | 0 <= i < |snapshot| ensures LeftAt(config, created, snapshot[i], handlers, recorded[i]) {
      RetainedIff(config, snapshot[i]);
      assert config.ChosenAt(snapshot[i], handlers, made);
    }
  }

  // ---- Changes to the book -------------------------------------------------------

  /** Closes a retired client whose last lease is gone. */
  function CloseRetired(b: Book, h: Handler): Book
    requires h in b.leases
  {
    if b.leases[h].retired && b.leases[h].refs == 0 then
      b.(leases := b.leases - {h},
         closes := if b.leases[h].owned then b.closes[h := CloseCount(b.closes, h) + 1] else b.closes)
    else b
  }

  /** Marks a client retired and closes it if nothing leases it. */
  function Retired(b: Book, h: Handler): Book
    requires h in b.leases
  {
    CloseRetired(b.(leases := b.leases[h := b.leases[h].(retired := true)]), h)
  }

  function Acquired(b: Book, h: Handler): Book
    requires h in b.leases
  {
    b.(leases := b.leases[h := b.leases[h].(refs := b.leases[h].refs + 1)], outstanding := b.outstanding + multiset{h})
  }

  function Released(b: Book, h: Handler): Book
    requires h in b.leases && b.leases[h].refs > 0
  {
    CloseRetired(b.(leases := b.leases[h := b.leases[h].(refs := b.leases[h].refs - 1)],
                    outstanding := b.outstanding - multiset{h}), h)
  }

  /** Routes an identifier to a new client; the previous one drains. */
  function Swapped(b: Book, h: Handler): Book
    requires h.id in b.handlers ==> b.handlers[h.id] in b.leases
  {
    var b' := b.(handlers := b.handlers[h.id := h], leases := b.leases[h := Lease(0, false, true)]);
    if h.id in b.handlers then Retired(b', b.handlers[h.id]) else b'
  }

  /** Stops routing an identifier; its client drains. */
  function Unrouted(b: Book, id: DatabaseId): Book
    requires id in b.handlers && b.handlers[id] in b.leases
  {
    Retired(b.(handlers := b.handlers - {id}), b.handlers[id])
  }

  function Made(b: Book, h: Handler): Book {
    b.(created := b.created + {h})
  }

  function Discarded(b: Book, h: Handler): Book {
    b.(closes := b.closes[h := CloseCount(b.closes, h) + 1])
  }

  /** Nothing is forgotten: clients stay made, a closed client stays closed, and so does the registry. */
  ghost predicate Advances(b: Book, b': Book) {
    && b.created <= b'.created && (b.closed ==> b'.closed)
    && forall h :: CloseCount(b.closes, h) <= CloseCount(b'.closes, h)
  }

  /** A change of routes: every lease handed out stays handed out. */
  ghost predicate Rerouted(b: Book, b': Book) {
    Advances(b, b') && b'.outstanding == b.outstanding && b'.closed == b.closed
  }

  lemma ReroutedTwice(a: Book, b: Book, c: Book)
    requires Rerouted(a, b) && Rerouted(b, c)
    ensures Rerouted(a, c)
  {
    forall h ensures CloseCount(a.closes, h) <= CloseCount(c.closes, h) {
      assert CloseCount(a.closes, h) <= CloseCount(b.closes, h);
    }
  }

  /** A retired client keeps its leases, and is closed at once exactly when it has none. */
  ghost predicate Drains(b: Book, h: Handler, b': Book) {
    if b.outstanding[h] == 0 then h !in b'.leases && CloseCount(b'.closes, h) == 1
    else h in b'.leases && b'.leases[h] == Lease(b.outstanding[h], true, true) && CloseCount(b'.closes, h) == 0
  }

  lemma RoutedIsLeased(b: Book, pending: set<Handler>, id: DatabaseId)
    requires Sound(b, pending) && !b.closed && id in b.handlers
    ensures b.handlers[id] in b.leases && b.handlers[id].id == id && !b.leases[b.handlers[id]].retired
    ensures b.handlers[id] !in pending
  {
    assert SoundAt(b, pending, b.handlers[id]);
  }

  lemma AcquireKeeps(b: Book, h: Handler)
    requires Sound(b, {}) && h in b.leases && !b.closed && !b.leases[h].retired
    ensures Sound(Acquired(b, h), {}) && Advances(b, Acquired(b, h))
  {
    forall g ensures SoundAt(Acquired(b, h), {}, g) {
      assert SoundAt(b, {}, g);
    }
  }

  lemma ReleaseKeeps(b: Book, h: Handler)
    requires Sound(b, {}) && h in b.outstanding
    ensures h in b.leases && b.leases[h].refs > 0 && Sound(Released(b, h), {}) && Advances(b, Released(b, h))
    ensures CloseCount(Released(b, h).closes, h) == 1 <==> b.leases[h].retired && Released(b, h).outstanding[h] == 0
    ensures forall g :: g != h ==> CloseCount(Released(b, h).closes, g) == CloseCount(b.closes, g)
  {
    assert SoundAt(b, {}, h);
    forall g ensures SoundAt(Released(b, h), {}, g) {
      assert SoundAt(b, {}, g);
    }
  }

  lemma SwapKeeps(b: Book, pending: set<Handler>, h: Handler)
    requires Sound(b, pending) && !b.closed && h in pending
    ensures h.id in b.handlers ==> b.handlers[h.id] in b.leases
    ensures Sound(Swapped(b, h), pending - {h}) && Rerouted(b, Swapped(b, h))
    ensures h.id in b.handlers ==> Drains(b, b.handlers[h.id], Swapped(b, h))
  {
    assert SoundAt(b, pending, h);
    if h.id in b.handlers {
      RoutedIsLeased(b, pending, h.id);
      assert SoundAt(b, pending, b.handlers[h.id]);
    }
    forall g ensures SoundAt(Swapped(b, h), pending - {h}, g) {
      assert SoundAt(b, pending, g);
    }
  }

  lemma RemoveKeeps(b: Book, pending: set<Handler>, id: DatabaseId)
    requires Sound(b, pending) && !b.closed && id in b.handlers
    ensures b.handlers[id] in b.leases && Sound(Unrouted(b, id), pending) && Rerouted(b, Unrouted(b, id))
    ensures Drains(b, b.handlers[id], Unrouted(b, id))
  {
    RoutedIsLeased(b, pending, id);
    assert SoundAt(b, pending, b.handlers[id]);
    forall g ensures SoundAt(Unrouted(b, id), pending, g) {
      assert SoundAt(b, pending, g);
    }
  }

  lemma MakeKeeps(b: Book, pending: set<Handler>, h: Handler)
    requires Sound(b, pending) && h !in b.created
    ensures Sound(Made(b, h), pending + {h}) && Rerouted(b, Made(b, h))
  {
    forall g ensures SoundAt(Made(b, h), pending + {h}, g) {
      assert SoundAt(b, pending, g);
    }
  }

  lemma DiscardKeeps(b: Book, pending: set<Handler>, h: Handler)
    requires Sound(b, pending) && h in pending
    ensures Sound(Discarded(b, h), pending - {h}) && Rerouted(b, Discarded(b, h))
  {
    forall g ensures SoundAt(Discarded(b, h), pending - {h}, g) {
      assert SoundAt(b, pending, g);
    }
  }

  /** The identifiers outside `todo` are routed to their chosen clients; `waiting` are the new clients still
      to route. */
  ghost predicate Swapping(b: Book, next: map<DatabaseId, Handler>, todo: set<DatabaseId>, waiting: set<Handler>) {
    && !b.closed && todo <= next.Keys && b.handlers.Keys <= next.Keys
    && (forall id :: id in next ==> next[id].id == id)
    && (forall id :: id in next && id !in todo ==> Lookup(b.handlers, id) == Some(next[id]))
    && (forall id :: id in todo ==> next[id] in waiting || Lookup(b.handlers, id) == Some(next[id]))
    && (forall h :: h in waiting ==> h.id in todo && next[h.id] == h)
  }

  lemma SwappingStep(b: Book, next: map<DatabaseId, Handler>, todo: set<DatabaseId>, waiting: set<Handler>,
                     id: DatabaseId)
    requires Swapping(b, next, todo, waiting) && id in todo && Sound(b, waiting)
    ensures if Lookup(b.handlers, id) == Some(next[id]) then Swapping(b, next, todo - {id}, waiting)
            else next[id] in waiting && (id in b.handlers ==> b.handlers[id] in b.leases) &&
                 Swapping(Swapped(b, next[id]), next, todo - {id}, waiting - {next[id]})
  {
    if id in b.handlers { RoutedIsLeased(b, waiting, id); }
  }

  lemma SwappedAll(b: Book, next: map<DatabaseId, Handler>, waiting: set<Handler>)
    requires Swapping(b, next, {}, waiting)
    ensures waiting == {} && b.handlers == next
  {
  }

  datatype Call =
    | CallAcquire(id: DatabaseId)
    | CallAcquireDefault
    | CallAcquireAll
    | CallRelease(handler: Handler)
    | CallInstall(snapshot: seq<Profile>, defaultId: DatabaseId, revision: int)
    | CallRemove(id: DatabaseId, saved: Option<int>)
    | CallClose

  /** The leases a call hands out. */
  function Granted(b: Book, settings: Settings, call: Call): multiset<Handler> {
    if b.closed then multiset{} else
    match call
    case CallAcquire(id) => if id in b.handlers then multiset{b.handlers[id]} else multiset{}
    case CallAcquireDefault =>
      if settings.defaultId in b.handlers then multiset{b.handlers[settings.defaultId]} else multiset{}
    case CallAcquireAll => multiset(b.handlers.Values)
    case _ => multiset{}
  }

  /** The lease a call gives back. */
  function Returned(b: Book, call: Call): multiset<Handler> {
    if call.CallRelease? && call.handler in b.outstanding then multiset{call.handler} else multiset{}
  }

  /** The snapshot is routed, with the old client of every unchanged profile and a new one for the others. */
  ghost predicate Installed(config: Config, b: Book, snapshot: seq<Profile>, b': Book, settings': Settings) {
    && b'.handlers.Keys == Ids(snapshot)
    && exists made :: made !! b.created && config.Prepared(snapshot, |snapshot|, b'.handlers, settings'.profiles, made)
  }

  /** What a call does to the routes and to the settings. */
  ghost predicate Rearranged(env: Connections, b: Book, settings: Settings, call: Call, b': Book, settings': Settings) {
    match call
    case CallInstall(snapshot, newDefault, revision) =>
      var config := Config(env, b.handlers, settings.profiles);
      if !b.closed && config.Acceptable(snapshot, newDefault) then
        && Installed(config, b, snapshot, b', settings')
        && settings' == Settings(settings'.profiles, newDefault, revision)
      else b'.handlers == b.handlers && settings' == settings
    case CallRemove(id, saved) =>
      if !b.closed && id in b.handlers && saved.Some? then
        && b'.handlers == b.handlers - {id}
        && settings'.profiles == Without(settings.profiles, id) && settings'.revision == saved.value
        && (if settings.defaultId != id then settings'.defaultId == settings.defaultId
            else forall other :: other in b'.handlers ==> !StringLess(other, settings'.defaultId))
      else b' == b && settings' == settings
    case _ => b'.handlers == b.handlers && settings' == settings
  }

  /** What a call does: to the routes, to the leases, and to whether the registry is open. */
  ghost predicate Answered(env: Connections, b: Book, settings: Settings, call: Call, b': Book, settings': Settings) {
    && Advances(b, b') && b'.closed == (b.closed || call.CallClose?)
    && b'.outstanding + Returned(b, call) == b.outstanding + Granted(b, settings, call)
    && Rearranged(env, b, settings, call, b', settings')
  }

  /** Every call of a run is answered, one after the other. */
  ghost predicate AnsweredAll(env: Connections, calls: seq<Call>, books: seq<Book>, configs: seq<Settings>) {
    && |books| == |configs| == |calls| + 1
    && forall i :: 0 <= i < |calls| ==> Answered(env, books[i], configs[i], calls[i], books[i + 1], configs[i + 1])
  }

  /** The leases the first `n` calls hand out, and those they give back. */
  ghost function GrantedBy(calls: seq<Call>, books: seq<Book>, configs: seq<Settings>, n: nat): multiset<Handler>
    requires n <= |calls| && n <= |books| && n <= |configs|
  {
    if n == 0 then multiset{}
    else GrantedBy(calls, books, configs, n - 1) + Granted(books[n - 1], configs[n - 1], calls[n - 1])
  }

  ghost function ReturnedBy(calls: seq<Call>, books: seq<Book>, n: nat): multiset<Handler>
    requires n <= |calls| && n <= |books|
  {
    if n == 0 then multiset{} else ReturnedBy(calls, books, n - 1) + Returned(books[n - 1], calls[n - 1])
  }

  /** At every point of a run, what is out is what was out, what was handed out and not what came back. */
  lemma {:induction false} LeasesBalance(env: Connections, calls: seq<Call>, books: seq<Book>, configs: seq<Settings>,
                                         n: nat)
    requires AnsweredAll(env, calls, books, configs) && n <= |calls|
    ensures books[n].outstanding + ReturnedBy(calls, books, n) ==
              books[0].outstanding + GrantedBy(calls, books, configs, n)
  {
    if n > 0 {
      LeasesBalance(env, calls, books, configs, n - 1);
      assert Answered(env, books[n - 1], configs[n - 1], calls[n - 1], books[n], configs[n]);
      Ledger(books[0].outstanding, books[n - 1].outstanding, books[n].outstanding,
             GrantedBy(calls, books, configs, n - 1), ReturnedBy(calls, books, n - 1),
             Granted(books[n - 1], configs[n - 1], calls[n - 1]), Returned(books[n - 1], calls[n - 1]));
    }
  }

  /** Once a call has closed the registry, it stays closed. */
  lemma {:induction false} StaysClosed(env: Connections, calls: seq<Call>, books: seq<Book>, configs: seq<Settings>,
                                       i: nat,
                                       n: nat)
    requires AnsweredAll(env, calls, books, configs) && i < n <= |calls| && calls[i].CallClose?
    ensures books[n].closed
  {
    assert Answered(env, books[n - 1], configs[n - 1], calls[n - 1], books[n], configs[n]);
    if i < n - 1 {
      StaysClosed(env, calls, books, configs, i, n - 1);
    }
  }

  /** Closed at most once, and never while leased or, before shutdown, routable. */
  ghost predicate ClosedRightly(b: Book, h: Handler) {
    && CloseCount(b.closes, h) <= 1
    && (CloseCount(b.closes, h) == 1 ==> b.outstanding[h] == 0 && (!b.closed ==> h !in b.handlers.Values))
  }

  ghost predicate AllClosedRightly(b: Book) {
    forall h :: ClosedRightly(b, h)
  }

  lemma ClosedRightlyEverywhere(b: Book)
    requires Sound(b, {})
    ensures AllClosedRightly(b)
  {
    forall h ensures ClosedRightly(b, h) {
      ClosedMeansUnused(b, h);
    }
  }

  /** At every point of a run clients are closed rightly, and nothing is ever undone. */
  ghost predicate RightlyRun(books: seq<Book>) {
    && (forall i :: 0 <= i < |books| ==> AllClosedRightly(books[i]))
    && (forall i :: 0 < i < |books| ==> Advances(books[i - 1], books[i]))
  }

  lemma RightlyRunOn(books: seq<Book>, b: Book)
    requires books != [] && RightlyRun(books) && Sound(b, {}) && Advances(books[|books| - 1], b)
    ensures RightlyRun(books + [b])
  {
    ClosedRightlyEverywhere(b);
  }

  lemma Ledger(start: multiset<Handler>, held: multiset<Handler>, now: multiset<Handler>, granted: multiset<Handler>,
               returned: multiset<Handler>, more: multiset<Handler>, back: multiset<Handler>)
    requires held + returned == start + granted && now + back == held + more
    ensures now + (returned + back) == start + (granted + more)
  {
    assert now + (returned + back) == (now + back) + returned;
    assert (held + more) + returned == (held + returned) + more;
  }

  lemma NothingHeld(all: multiset<Handler>, held: multiset<Handler>, returned: multiset<Handler>)
    requires held + returned == all && all == returned
    ensures held == multiset{}
  {
    forall h ensures held[h] == 0 {
      assert (held + returned)[h] == held[h] + returned[h];
    }
  }

  /** Every client made so far has a serial below the next one. */
  ghost predicate Numbered(b: Book, nextSerial: nat) {
    forall h :: h in b.created ==> h.serial < nextSerial
  }

  /** The profiles left when one is removed, and their default: the old one, or the smallest identifier. */
  method Remaining(profiles: seq<Profile>, id: DatabaseId, defaultId: DatabaseId)
    returns (next: seq<Profile>, newDefault: DatabaseId)
    requires ValidProfileDefault(profiles, defaultId) && "" !in Ids(profiles) && id in Ids(profiles)
    ensures next == Without(profiles, id) && RestOf(next, profiles, id) && Ids(next) == Ids(profiles) - {id}
    ensures ValidProfileDefault(next, newDefault) && (defaultId != id ==> newDefault == defaultId)
    ensures defaultId == id ==> forall other :: other in Ids(next) ==> !StringLess(other, newDefault)
  {
    next, newDefault := Without(profiles, id), defaultId;
    WithoutIds(profiles, id);
    WithoutIsRest(profiles, id);
    if newDefault == id {
      assert forall i :: 0 <= i < |next| ==> next[i].id in Ids(next);
      newDefault := SmallestId(next);
    } else {
      StillDefault(profiles, id, newDefault);
    }
  }

  class Registry {
    const env: Connections
    var book: Book
    var settings: Settings
    var nextSerial: nat

    ghost predicate SoundExcept(pending: set<Handler>)
      reads this`book, this`nextSerial
    {
      Sound(book, pending) && Numbered(book, nextSerial)
    }

    ghost predicate Valid()
      reads this`book, this`nextSerial
    {
      SoundExcept({})
    }

    constructor (env: Connections)
      ensures Valid() && book == Book(map[], map[], map[], false, multiset{}, {}) && Configured(book, settings)
      ensures this.env == env
    {
      this.env := env;
      book, settings, nextSerial := Book(map[], map[], map[], false, multiset{}, {}), Settings([], "", 0), 0;
    }

    // ---- Leases ----------------------------------------------------------------

    method Acquire(id: DatabaseId) returns (lease: Option<Handler>)
      requires Valid()
      modifies this`book
      ensures Valid() && book == old(book).(leases := book.leases, outstanding := book.outstanding)
      ensures lease == if book.closed then None else Lookup(book.handlers, id)
      ensures book.outstanding == if lease.Some? then old(book).outstanding + multiset{lease.value}
                                  else old(book).outstanding
    {
      if book.closed || id !in book.handlers {
        return None;
      }
      var h := book.handlers[id];
      RoutedIsLeased(book, {}, id);
      AcquireKeeps(book, h);
      book := Acquired(book, h);
      return Some(h);
    }

    method Release(h: Handler)
      requires Valid() && h in book.outstanding
      modifies this`book
      ensures Valid() && book.outstanding == old(book).outstanding - multiset{h} && Advances(old(book), book)
      ensures book == old(book).(leases := book.leases, closes := book.closes, outstanding := book.outstanding)
      ensures CloseCount(book.closes, h) == 1 <==>
                h in old(book).leases && old(book).leases[h].retired && book.outstanding[h] == 0
      ensures forall g :: g != h ==> CloseCount(book.closes, g) == CloseCount(old(book).closes, g)
    {
      ReleaseKeeps(book, h);
      book := Released(book, h);
    }

    method AcquireDefault() returns (lease: Option<Handler>)
      requires Valid() && Configured(book, settings)
      modifies this`book
      ensures Valid() && book == old(book).(leases := book.leases, outstanding := book.outstanding)
      ensures lease.Some? <==> !book.closed && settings.profiles != []
      ensures lease.Some? ==> Lookup(book.handlers, settings.defaultId) == lease && lease.value.id == settings.defaultId
      ensures book.outstanding == if lease.Some? then old(book).outstanding + multiset{lease.value}
                                  else old(book).outstanding
    {
      assert settings.defaultId in book.handlers ==> book.handlers[settings.defaultId].id == settings.defaultId;
      assert settings.profiles == [] ==> Ids(settings.profiles) == {};
      lease := Acquire(settings.defaultId);
    }

    /** One lease on every routable database, for an aggregate query. */
    method AcquireAll() returns (acquired: set<Handler>)
      requires Valid()
      modifies this`book
      ensures Valid() && book == old(book).(leases := book.leases, outstanding := book.outstanding)
      ensures acquired == (if book.closed then {} else book.handlers.Values)
      ensures book.outstanding == old(book).outstanding + multiset(acquired)
    {
      acquired := {};
      if book.closed {
        return;
      }
      var todo := book.handlers.Keys;
      while todo != {}
        invariant book == old(book).(leases := book.leases, outstanding := book.outstanding)
        invariant !book.closed && Valid() && todo <= book.handlers.Keys
        invariant forall h :: h in acquired ==> h.id !in todo && Lookup(book.handlers, h.id) == Some(h)
        invariant forall id :: id in book.handlers && id !in todo ==> book.handlers[id] in acquired
        invariant book.outstanding == old(book).outstanding + multiset(acquired)
        decreases |todo|
      {
        var id :| id in todo;
        RoutedIsLeased(book, {}, id);
        var lease := Acquire(id);
        assert multiset(acquired + {lease.value}) == multiset(acquired) + multiset{lease.value};
        acquired := acquired + {lease.value};
        todo := todo - {id};
      }
    }

    // ---- Configuration ---------------------------------------------------------

    function Current(): Config
      reads this`book, this`settings
    {
      Config(env, book.handlers, settings.profiles)
    }

    /** Makes a client that is not yet published. */
    method MakeHandler(id: DatabaseId, ghost made: set<Handler>) returns (h: Handler)
      requires SoundExcept(made)
      modifies this`nextSerial, this`book
      ensures h.id == id && h !in old(book).created && book == Made(old(book), h) && SoundExcept(made + {h})
    {
      h := Handler(nextSerial, id);
      MakeKeeps(book, made, h);
      book := Made(book, h);
      nextSerial := nextSerial + 1;
    }

    /** The routed client of an unchanged profile, or a new one. */
    method ChooseHandler(profile: Profile, made0: set<Handler>) returns (h: Handler, made: set<Handler>)
      requires SoundExcept(made0) && made0 <= book.created
      modifies this`nextSerial, this`book
      ensures SoundExcept(made) && book == old(book).(created := old(book).created + made)
      ensures if old(Current()).Retained(profile) then h == old(book).handlers[profile.id] && made == made0
              else h.id == profile.id && h !in old(book).created && made == made0 + {h}
    {
      if Current().Retained(profile) {
        return book.handlers[profile.id], made0;
      }
      h := MakeHandler(profile.id, made0);
      made := made0 + {h};
    }

    /** Checks one profile of a snapshot and chooses its client. */
    method PrepareProfile(config: Config, snapshot: seq<Profile>, i: nat, next0: map<DatabaseId, Handler>,
                          normalized0: seq<Profile>,
                          made0: set<Handler>)
      returns (ok: bool, next: map<DatabaseId, Handler>, normalized: seq<Profile>, made: set<Handler>)
      requires SoundExcept(made0) && config == Current() && i < |snapshot|
      requires config.Prepared(snapshot, i, next0, normalized0, made0)
      modifies this`nextSerial, this`book
      ensures SoundExcept(made) && book == old(book).(created := old(book).created + made) && made0 <= made
      ensures forall h :: h in made && h !in made0 ==> h !in old(book).created
      ensures ok == config.AcceptableAt(snapshot, i)
      ensures ok ==> config.Prepared(snapshot, i + 1, next, normalized, made)
    {
      ok, next, normalized, made := false, next0, normalized0, made0;
      var profile := snapshot[i];
      TakeIds(snapshot, i);
      if !ValidDatabaseId(profile.id) || profile.id in next || profile.revision == "" {
        return;
      }
      if !config.Retained(profile) && !env.connects(profile) {
        return;
      }
      var h;
      h, made := ChooseHandler(profile, made);
      if exists j :: 0 <= j < i && env.duplicate(snapshot[j], profile) {
        return;
      }
      config.PrepareStep(snapshot, i, next0, normalized0, made0, h);
      ok, next, normalized := true, next[profile.id := h], normalized + [config.Normalized(profile)];
    }

    /** Chooses or makes the client of every profile of a snapshot, stopping at the first that is
        not acceptable. Nothing is published. */
    method PrepareHandlers(snapshot: seq<Profile>)
      returns (ok: bool, next: map<DatabaseId, Handler>, normalized: seq<Profile>, made: set<Handler>)
      requires Valid()
      modifies this`nextSerial, this`book
      ensures SoundExcept(made) && made !! old(book).created && book == old(book).(created := old(book).created + made)
      ensures ok <==> forall i :: 0 <= i < |snapshot| ==> Current().AcceptableAt(snapshot, i)
      ensures ok ==> Current().Prepared(snapshot, |snapshot|, next, normalized, made)
    {
      ok, next, normalized, made := true, map[], [], {};
      var config := Current();
      for i := 0 to |snapshot|
        invariant SoundExcept(made) && made !! old(book).created
        invariant book == old(book).(created := old(book).created + made)
        invariant ok && config.Prepared(snapshot, i, next, normalized, made)
      {
        ok, next, normalized, made := PrepareProfile(config, snapshot, i, next, normalized, made);
        if !ok {
          assert !Current().AcceptableAt(snapshot, i);
          return;
        }
      }
    }

    /** Closes the clients made for a snapshot that was rejected. */
    method Discard(made: set<Handler>)
      requires SoundExcept(made)
      modifies this`book
      ensures Valid() && book == old(book).(closes := book.closes) && Rerouted(old(book), book)
      ensures forall h :: h !in made ==> CloseCount(book.closes, h) == CloseCount(old(book).closes, h)
    {
      var todo := made;
      while todo != {}
        invariant todo <= made && SoundExcept(todo) && book == old(book).(closes := book.closes)
        invariant Rerouted(old(book), book)
        invariant forall h :: h !in made ==> CloseCount(book.closes, h) == CloseCount(old(book).closes, h)
        decreases |todo|
      {
        var h :| h in todo;
        DiscardKeeps(book, todo, h);
        ReroutedTwice(old(book), book, Discarded(book, h));
        book := Discarded(book, h);
        todo := todo - {h};
      }
    }

    /** Stops routing the databases a snapshot no longer lists. */
    method RemoveMissing(keep: set<DatabaseId>, ghost pending: set<Handler>)
      requires SoundExcept(pending) && !book.closed
      modifies this`book
      ensures SoundExcept(pending) && Rerouted(old(book), book)
      ensures book.handlers == map id | id in old(book).handlers && id in keep :: old(book).handlers[id]
    {
      var todo := book.handlers.Keys;
      while todo != {}
        invariant SoundExcept(pending) && Rerouted(old(book), book) && todo <= old(book).handlers.Keys
        invariant book.handlers ==
                    map id | id in old(book).handlers && (id in keep || id in todo) :: old(book).handlers[id]
        decreases |todo|
      {
        var id :| id in todo;
        if id !in keep {
          RemoveKeeps(book, pending, id);
          ReroutedTwice(old(book), book, Unrouted(book, id));
          book := Unrouted(book, id);
        }
        todo := todo - {id};
      }
    }

    /** Routes every database of a snapshot to its chosen client. */
    method SwapChanged(next: map<DatabaseId, Handler>, ghost pending: set<Handler>)
      requires SoundExcept(pending) && Swapping(book, next, next.Keys, pending)
      modifies this`book
      ensures Valid() && Rerouted(old(book), book) && book.handlers == next
    {
      var todo := next.Keys;
      ghost var waiting := pending;
      while todo != {}
        invariant SoundExcept(waiting) && Swapping(book, next, todo, waiting) && Rerouted(old(book), book)
        decreases |todo|
      {
        var id :| id in todo;
        SwappingStep(book, next, todo, waiting, id);
        if Lookup(book.handlers, id) != Some(next[id]) {
          SwapKeeps(book, waiting, next[id]);
          ReroutedTwice(old(book), book, Swapped(book, next[id]));
          book := Swapped(book, next[id]);
          waiting := waiting - {next[id]};
        }
        todo := todo - {id};
      }
      SwappedAll(book, next, waiting);
    }

    /** Stops routing what is no longer listed, then swaps what changed. */
    method RouteAll(next: map<DatabaseId, Handler>, ghost made: set<Handler>)
      requires SoundExcept(made) && !book.closed && Routable(book.handlers, next, made)
      modifies this`book
      ensures Valid() && Rerouted(old(book), book) && book.handlers == next
    {
      RemoveMissing(next.Keys, made);
      ghost var kept := book;
      SwapChanged(next, made);
      ReroutedTwice(old(book), kept, book);
    }

    /** Publishes prepared clients and their configuration. */
    method Publish(next: map<DatabaseId, Handler>, newSettings: Settings, ghost made: set<Handler>)
      requires SoundExcept(made) && !book.closed && Publishable(book.handlers, next, newSettings, made)
      modifies this`book, this`settings
      ensures Valid() && Rerouted(old(book), book) && Configured(book, settings) && book.handlers == next
      ensures settings == newSettings
    {
      RouteAll(next, made);
      settings := newSettings;
    }

    /** Validates a whole snapshot before publishing any of it. */
    method InstallSnapshot(snapshot: seq<Profile>, newDefault: DatabaseId, newRevision: int) returns (ok: bool)
      requires Valid() && !book.closed
      modifies this
      ensures Valid() && Rerouted(old(book), book) && ok == old(Current()).Acceptable(snapshot, newDefault)
      ensures ok ==> Configured(book, settings) && book.handlers.Keys == Ids(snapshot) &&
                     settings == Settings(settings.profiles, newDefault, newRevision)
      ensures ok ==>
                exists made :: made !! old(book).created &&
                               old(Current()).Prepared(snapshot, |snapshot|, book.handlers, settings.profiles, made)
      ensures ok <==> Proper(old(Current()), snapshot, newDefault)
      ensures ok ==> Leaves(old(Current()), old(book).created, snapshot, book.handlers, settings.profiles)
      ensures !ok ==> settings == old(settings) && book == old(book).(closes := book.closes, created := book.created)
      ensures !ok ==>
                forall h :: h in old(book).created ==> CloseCount(book.closes, h) == CloseCount(old(book).closes, h)
    {
      ghost var config, created := Current(), book.created;
      AcceptableIff(config, snapshot, newDefault);
      ok := Install(snapshot, newDefault, newRevision);
      if ok {
        ghost var made :| made !! created &&
                          config.Prepared(snapshot, |snapshot|, book.handlers, settings.profiles, made);
        PreparedLeaves(config, created, snapshot, book.handlers, settings.profiles, made);
      }
    }

    method Install(snapshot: seq<Profile>, newDefault: DatabaseId, newRevision: int) returns (ok: bool)
      requires Valid() && !book.closed
      modifies this
      ensures Valid() && Rerouted(old(book), book) && ok == old(Current()).Acceptable(snapshot, newDefault)
      ensures ok ==> Configured(book, settings) && book.handlers.Keys == Ids(snapshot) &&
                     settings == Settings(settings.profiles, newDefault, newRevision)
      ensures ok ==>
                exists made :: made !! old(book).created &&
                               old(Current()).Prepared(snapshot, |snapshot|, book.handlers, settings.profiles, made)
      ensures !ok ==> settings == old(settings) && book == old(book).(closes := book.closes, created := book.created)
      ensures !ok ==>
                forall h :: h in old(book).created ==> CloseCount(book.closes, h) == CloseCount(old(book).closes, h)
    {
      if !ValidProfileDefault(snapshot, newDefault) {
        return false;
      }
      var next, normalized, made;
      ok, next, normalized, made := PrepareHandlers(snapshot);
      ghost var prepared := book;
      if !ok {
        Discard(made);
        ReroutedTwice(old(book), prepared, book);
        return;
      }
      Current().PreparedIsPublishable(snapshot, next, normalized, made, newDefault, newRevision);
      Publish(next, Settings(normalized, newDefault, newRevision), made);
      ReroutedTwice(old(book), prepared, book);
    }

    /** Removing a connection changes only the registry; the smallest remaining identifier becomes
        the default if the removed one was. */
    method RemoveDatabase(id: DatabaseId, saved: Option<int>) returns (ok: bool)
      requires Valid() && Configured(book, settings)
      modifies this`book, this`settings
      ensures Valid() && Rerouted(old(book), book) && Configured(book, settings)
      ensures ok <==> !old(book).closed && id in old(book).handlers && saved.Some?
      ensures ok ==> book.handlers == old(book).handlers - {id} && Drains(old(book), old(book).handlers[id], book)
      ensures ok ==> settings.profiles == Without(old(settings).profiles, id) && settings.revision == saved.value
      ensures ok ==> RestOf(settings.profiles, old(settings).profiles, id)
      ensures ok && old(settings).defaultId != id ==> settings.defaultId == old(settings).defaultId
      ensures ok && old(settings).defaultId == id ==>
                forall other :: other in book.handlers ==> !StringLess(other, settings.defaultId)
      ensures !ok ==> book == old(book) && settings == old(settings)
    {
      if book.closed || id !in book.handlers || saved.None? {
        return false;
      }
      var next, newDefault := Remaining(settings.profiles, id, settings.defaultId);
      RemoveKeeps(book, {}, id);
      book := Unrouted(book, id);
      settings := Settings(next, newDefault, saved.value);
      return true;
    }

    method Close()
      requires Valid()
      modifies this`book
      ensures Valid() && book.closed && book == old(book).(closed := true, leases := book.leases, closes := book.closes)
      ensures Advances(old(book), book)
      ensures old(book).closed ==> book == old(book)
    {
      if book.closed {
        return;
      }
      ghost var before := book;
      book := book.(closed := true);
      var todo := book.leases.Keys;
      while todo != {}
        invariant todo <= book.leases.Keys
        invariant book == before.(closed := true, leases := book.leases, closes := book.closes)
        invariant forall h :: ClosingAt(before, book, todo, h)
        decreases |todo|
      {
        var h :| h in todo;
        ClosingStep(before, book, todo, h);
        book := Retired(book, h);
        todo := todo - {h};
      }
      ClosedIsSound(before, book);
    }

    // ---- Runs --------------------------------------------------------------------

    method HandleAcquire(call: Call) returns (granted: multiset<Handler>)
      requires Valid() && Configured(book, settings)
      requires (call.CallAcquire? || call.CallAcquireDefault? || call.CallAcquireAll?)
      modifies this`book
      ensures Valid() && book == old(book).(leases := book.leases, outstanding := book.outstanding)
      ensures granted == Granted(old(book), settings, call) && book.outstanding == old(book).outstanding + granted
    {
      match call
      case CallAcquireAll =>
        var leases := AcquireAll();
        return multiset(leases);
      case CallAcquire(id) =>
        var lease := Acquire(id);
        return if lease.Some? then multiset{lease.value} else multiset{};
      case CallAcquireDefault =>
        assert settings.profiles == [] ==> Ids(settings.profiles) == {};
        var lease := AcquireDefault();
        return if lease.Some? then multiset{lease.value} else multiset{};
    }

    method HandleChange(call: Call)
      requires Valid() && Configured(book, settings) && (call.CallInstall? || call.CallRemove? || call.CallClose?)
      modifies this
      ensures Valid() && Configured(book, settings) && Answered(env, old(book), old(settings), call, book, settings)
    {
      match call
      case CallInstall(snapshot, newDefault, newRevision) =>
        if !book.closed {
          var ok := Install(snapshot, newDefault, newRevision);
        }
      case CallRemove(id, saved) =>
        var ok := RemoveDatabase(id, saved);
      case CallClose =>
        Close();
    }

    /** One call from a request handler; a request releases only what it holds, and nothing is
        installed after shutdown. */
    method Handle(call: Call) returns (granted: multiset<Handler>, returned: multiset<Handler>)
      requires Valid() && Configured(book, settings)
      modifies this
      ensures Valid() && Configured(book, settings) && Answered(env, old(book), old(settings), call, book, settings)
      ensures granted == Granted(old(book), old(settings), call) && returned == Returned(old(book), call)
    {
      granted, returned := multiset{}, multiset{};
      if call.CallRelease? {
        if call.handler in book.outstanding {
          Release(call.handler);
          returned := multiset{call.handler};
        }
      } else if call.CallInstall? || call.CallRemove? || call.CallClose? {
        HandleChange(call);
      } else {
        granted := HandleAcquire(call);
      }
    }

    /** Any sequence of calls, each answered in turn; `books` and `configs` are the states in between.
        The leases held are those granted and not returned; at every point a client has been closed at
        most once and never while leased; and once the registry is closed and every lease returned, each
        client ever made has been closed exactly once. */
    method Serve(calls: seq<Call>)
      returns (granted: multiset<Handler>, returned: multiset<Handler>, ghost books: seq<Book>,
               ghost configs: seq<Settings>)
      requires Valid() && Configured(book, settings)
      modifies this
      ensures Valid() && AnsweredAll(env, calls, books, configs) && RightlyRun(books)
      ensures books[0] == old(book) && books[|calls|] == book
      ensures configs[0] == old(settings) && configs[|calls|] == settings
      ensures granted == GrantedBy(calls, books, configs, |calls|) && returned == ReturnedBy(calls, books, |calls|)
      ensures book.outstanding + returned == old(book).outstanding + granted
      ensures (exists i :: 0 <= i < |calls| && calls[i].CallClose?) && old(book).outstanding + granted == returned ==>
                forall h :: h in book.created ==> CloseCount(book.closes, h) == 1
    {
      granted, returned, books, configs := multiset{}, multiset{}, [book], [settings];
      ClosedRightlyEverywhere(book);
      for k := 0 to |calls|
        invariant Valid() && Configured(book, settings)
        invariant AnsweredAll(env, calls[..k], books, configs) && RightlyRun(books)
        invariant books[0] == old(book) && books[k] == book && configs[0] == old(settings) && configs[k] == settings
        invariant granted == GrantedBy(calls[..k], books, configs, k) && returned == ReturnedBy(calls[..k], books, k)
      {
        ghost var before, held := books, configs;
        var more, back := Handle(calls[k]);
        RightlyRunOn(books, book);
        books, configs := books + [book], configs + [settings];
        AnsweredNext(env, calls, before, held, k, book, settings);
        TalliesNext(calls, before, held, k, book, settings);
        granted, returned := granted + more, returned + back;
      }
      assert calls[..|calls|] == calls;
      LeasesBalance(env, calls, books, configs, |calls|);
      if (exists i :: 0 <= i < |calls| && calls[i].CallClose?) && old(book).outstanding + granted == returned {
        ghost var i :| 0 <= i < |calls| && calls[i].CallClose?;
        StaysClosed(env, calls, books, configs, i, |calls|);
        NothingHeld(old(book).outstanding + granted, book.outstanding, returned);
        AllClosedAfterDrain(book);
      }
    }
  }

  lemma AnsweredNext(env: Connections, calls: seq<Call>, books: seq<Book>, configs: seq<Settings>, k: nat, b: Book,
                     settings: Settings)
    requires k < |calls| && AnsweredAll(env, calls[..k], books, configs)
    requires Answered(env, books[k], configs[k], calls[k], b, settings)
    ensures AnsweredAll(env, calls[..k + 1], books + [b], configs + [settings])
  {
    var calls', books', configs' := calls[..k + 1], books + [b], configs + [settings];
    forall i | 0 <= i < |calls'|
      ensures Answered(env, books'[i], configs'[i], calls'[i], books'[i + 1], configs'[i + 1])
    {
      if i < k {
        assert calls[..k][i] == calls'[i];
        assert Answered(env, books[i], configs[i], calls[..k][i], books[i + 1], configs[i + 1]);
      }
    }
  }

  lemma TalliesNext(calls: seq<Call>, books: seq<Book>, configs: seq<Settings>, k: nat, b: Book, settings: Settings)
    requires k < |calls| && |books| == k + 1 == |configs|
    ensures GrantedBy(calls[..k + 1], books + [b], configs + [settings], k + 1) ==
              GrantedBy(calls[..k], books, configs, k) + Granted(books[k], configs[k], calls[k])
    ensures ReturnedBy(calls[..k + 1], books + [b], k + 1) ==
              ReturnedBy(calls[..k], books, k) + Returned(books[k], calls[k])
  {
    var calls', books', configs' := calls[..k + 1], books + [b], configs + [settings];
    assert calls'[..k] == calls[..k][..k] && books'[..k] == books[..k] && configs'[..k] == configs[..k];
    GrantsAgree(calls', books', configs', calls[..k], books, configs, k);
    ReturnsAgree(calls', books', calls[..k], books, k);
  }

  lemma {:induction false} GrantsAgree(calls: seq<Call>, books: seq<Book>, configs: seq<Settings>,
                                       calls': seq<Call>, books': seq<Book>, configs': seq<Settings>, n: nat)
    requires n <= |calls| && n <= |books| && n <= |configs| && n <= |calls'| && n <= |books'| && n <= |configs'|
    requires calls[..n] == calls'[..n] && books[..n] == books'[..n] && configs[..n] == configs'[..n]
    ensures GrantedBy(calls, books, configs, n) == GrantedBy(calls', books', configs', n)
  {
    if n > 0 {
      SamePrefix(calls, calls', n);
      SamePrefix(books, books', n);
      SamePrefix(configs, configs', n);
      GrantsAgree(calls, books, configs, calls', books', configs', n - 1);
    }
  }

  lemma {:induction false} ReturnsAgree(calls: seq<Call>, books: seq<Book>, calls': seq<Call>, books': seq<Book>,
                                        n: nat)
    requires n <= |calls| && n <= |books| && n <= |calls'| && n <= |books'|
    requires calls[..n] == calls'[..n] && books[..n] == books'[..n]
    ensures ReturnedBy(calls, books, n) == ReturnedBy(calls', books', n)
  {
    if n > 0 {
      SamePrefix(calls, calls', n);
      SamePrefix(books, books', n);
      ReturnsAgree(calls, books, calls', books', n - 1);
    }
  }

  lemma SamePrefix<T>(s: seq<T>, t: seq<T>, n: nat)
    requires 0 < n <= |s| && n <= |t| && s[..n] == t[..n]
    ensures s[..n - 1] == t[..n - 1] && s[n - 1] == t[n - 1]
  {
    assert s[..n - 1] == s[..n][..n - 1] && t[..n - 1] == t[..n][..n - 1];
    assert s[..n][n - 1] == t[..n][n - 1];
  }

  /** Shutdown has retired every lease outside `todo`. */
  ghost predicate ClosingAt(before: Book, now: Book, todo: set<Handler>, h: Handler) {
    if h in before.leases && h !in todo then
      if before.leases[h].refs > 0
      then
        && Lookup(now.leases, h) == Some(before.leases[h].(retired := true))
        && CloseCount(now.closes, h) == CloseCount(before.closes, h)
      else
        && h !in now.leases
        && (before.leases[h].owned ==> CloseCount(now.closes, h) == CloseCount(before.closes, h) + 1)
    else
      Lookup(now.leases, h) == Lookup(before.leases, h) && CloseCount(now.closes, h) == CloseCount(before.closes, h)
  }

  lemma ClosingStep(before: Book, now: Book, todo: set<Handler>, h: Handler)
    requires h in todo && todo <= now.leases.Keys && forall g :: ClosingAt(before, now, todo, g)
    ensures forall g :: ClosingAt(before, Retired(now, h), todo - {h}, g)
    ensures todo - {h} <= Retired(now, h).leases.Keys
  {
    forall g ensures ClosingAt(before, Retired(now, h), todo - {h}, g) {
      assert ClosingAt(before, now, todo, g) && ClosingAt(before, now, todo, h);
    }
  }

  lemma ClosedIsSound(before: Book, now: Book)
    requires Sound(before, {}) && !before.closed
    requires now == before.(closed := true, leases := now.leases, closes := now.closes)
    requires forall h :: ClosingAt(before, now, {}, h)
    ensures Sound(now, {}) && Advances(before, now)
  {
    forall g ensures SoundAt(now, {}, g) && CloseCount(before.closes, g) <= CloseCount(now.closes, g) {
      assert ClosingAt(before, now, {}, g) && SoundAt(before, {}, g);
    }
  }
}

/** The in-memory token store, with lazy clean-up, against the history of saves and revocations. */
module TokenStoreModel {
  import opened Options

  /** User, client and device; an absent client or device is the empty string. */
  datatype Device = Device(user: string, client: string, id: string)

  datatype State = State(states: map<string, real>, deviceMap: map<Device, string>, userJtis: map<string, set<string>>)

  const EMPTY := State(map[], map[], map[])

  function Key(user: string, jti: string): string {
    user + ":" + jti
  }

  function JtisOf(s: State, user: string): set<string> {
    if user in s.userJtis then s.userJtis[user] else {}
  }

  // ---- the operations ----

  /** The user's credentials whose time is over. */
  function Expired(s: State, user: string, now: real): set<string> {
    set j | j in JtisOf(s, user) && (if Key(user, j) in s.states then s.states[Key(user, j)] else 0.0) <= now
  }

  function KeysOf(user: string, jtis: set<string>): set<string> {
    set j | j in jtis :: Key(user, j)
  }

  /** The user's devices whose credential is not among `live`. */
  function Stale(s: State, user: string, live: set<string>): set<Device> {
    set c | c in s.deviceMap && c.user == user && s.deviceMap[c] !in live
  }

  function Pruned(s: State, user: string, now: real): State {
    var jtis := JtisOf(s, user);
    if jtis == {} then s else
    var live := jtis - Expired(s, user, now);
    var states := s.states - KeysOf(user, Expired(s, user, now));
    if live == {} then s.(states := states, userJtis := s.userJtis - {user})
    else State(states, s.deviceMap - Stale(s, user, live), s.userJtis[user := live])
  }

  /** The credential that a save on this device replaces; an empty one is never replaced. */
  function Replaced(s: State, jti: string, device: Device): Option<string> {
    if device in s.deviceMap && s.deviceMap[device] != "" && s.deviceMap[device] != jti
    then Some(s.deviceMap[device]) else None
  }

  function Put(s: State, jti: string, expiry: real, device: Device): State {
    var user := device.user;
    var out := Replaced(s, jti, device);
    State((if out.Some? then s.states - {Key(user, out.value)} else s.states)[Key(user, jti) := expiry],
          s.deviceMap[device := jti],
          s.userJtis[user := (if out.Some? then JtisOf(s, user) - {out.value} else JtisOf(s, user)) + {jti}])
  }

  function Save(s: State, jti: string, ttl: real, device: Device, now: real): State {
    Put(Pruned(s, device.user, now), jti, now + ttl, device)
  }

  function Discarded(s: State, user: string, jti: string): State {
    var jtis := JtisOf(s, user);
    if jtis == {} then s
    else if jtis - {jti} == {} then s.(userJtis := s.userJtis - {user})
    else s.(userJtis := s.userJtis[user := jtis - {jti}])
  }

  function Removed(s: State, user: string, jti: string): State {
    if Key(user, jti) !in s.states then s
    else Discarded(s.(states := s.states - {Key(user, jti)}), user, jti)
  }

  predicate Answer(s: State, user: string, jti: string, now: real) {
    Key(user, jti) in s.states && now < s.states[Key(user, jti)]
  }

  /** Looking up a credential also removes it when its time is over. */
  function Checked(s: State, user: string, jti: string, now: real): State {
    if Answer(s, user, jti, now) then s else Removed(s, user, jti)
  }

  /** Clean-up never changes an answer, now or later. */
  lemma PruningIsInvisible(s: State, pruned: string, now: real, user: string, jti: string, t: real)
    requires t >= now
    ensures Answer(Pruned(s, pruned, now), user, jti, t) == Answer(s, user, jti, t)
  {
  }

  /** Recorded for the user, and not over. */
  predicate IsLive(s: State, user: string, jti: string, now: real) {
    jti in JtisOf(s, user) && (if Key(user, jti) in s.states then s.states[Key(user, jti)] else 0.0) > now
  }

  /** Clean-up takes out the user's device entries that name a credential which is unknown or over, if the user has one
      that is good, and no other entry. */
  lemma PrunedDevicesIff(s: State, user: string, now: real, c: Device)
    ensures c in Pruned(s, user, now).deviceMap
       <==> && c in s.deviceMap
            && (c.user == user && (exists j :: IsLive(s, user, j, now)) ==> IsLive(s, user, s.deviceMap[c], now))
    ensures c in Pruned(s, user, now).deviceMap ==> Pruned(s, user, now).deviceMap[c] == s.deviceMap[c]
  {
    assert forall j :: j in JtisOf(s, user) - Expired(s, user, now) <==> IsLive(s, user, j, now);
  }

  // ---- the history ----

  datatype Entry =
    | SaveEntry(jti: string, ttl: real, device: Device, at: real)
    | RevokeEntry(user: string, jti: string, at: real)
    | CheckEntry(user: string, jti: string, at: real)

  function UserOf(e: Entry): string {
    if e.SaveEntry? then e.device.user else e.user
  }

  predicate IsSaveOf(e: Entry, user: string, jti: string) {
    e.SaveEntry? && e.device.user == user && e.jti == jti
  }

  /** `e` ends the credential that `save` started: revoked, saved anew, or replaced on the same device. */
  predicate Ends(e: Entry, save: Entry)
    requires save.SaveEntry?
  {
    match e
    case RevokeEntry(user, jti, _) => user == save.device.user && jti == save.jti
    case SaveEntry(jti, _, device, _) =>
      if jti == save.jti then device.user == save.device.user else device == save.device && save.jti != ""
    case CheckEntry(_, _, _) => false
  }

  /** Entry `k` saved the credential and none of the entries before `n` ended it since. */
  ghost predicate StandsSince(log: seq<Entry>, n: nat, user: string, jti: string, k: nat)
    requires n <= |log|
  {
    k < n && IsSaveOf(log[k], user, jti) && forall m | k < m < n :: !Ends(log[m], log[k])
  }

  /** What the history says of a credential at time `t`, after its first `n` entries. */
  ghost predicate ValidAt(log: seq<Entry>, n: nat, user: string, jti: string, t: real)
    requires n <= |log|
  {
    exists k: nat :: StandsSince(log, n, user, jti, k) && t < log[k].at + log[k].ttl
  }

  function Step(s: State, e: Entry): State {
    match e
    case SaveEntry(jti, ttl, device, at) => Save(s, jti, ttl, device, at)
    case RevokeEntry(user, jti, _) => Removed(s, user, jti)
    case CheckEntry(user, jti, at) => Checked(s, user, jti, at)
  }

  /** The store after the first `n` operations of the history. */
  function Replay(log: seq<Entry>, n: nat): State
    requires n <= |log|
  {
    if n == 0 then EMPTY else Step(Replay(log, n - 1), log[n - 1])
  }

  /** Every look-up is answered as the history says. */
  ghost predicate AnswersRight(log: seq<Entry>) {
    forall k | 0 <= k < |log| && log[k].CheckEntry? ::
      Answer(Replay(log, k), log[k].user, log[k].jti, log[k].at) == ValidAt(log, k, log[k].user, log[k].jti, log[k].at)
  }

  // ---- which histories are answered right ----

  /** The user ids that may occur, and the credentials that may be saved with the devices they may be saved from. */
  datatype Scope = Scope(users: iset<string>, saves: iset<(string, Device)>)

  ghost predicate WellScoped(scope: Scope) {
    forall p | p in scope.saves :: p.1.user in scope.users
  }

  /** Users and saves stay in scope and the clock never goes back. */
  ghost predicate Orderly(log: seq<Entry>, scope: Scope) {
    && (forall k | 0 <= k < |log| :: UserOf(log[k]) in scope.users)
    && (forall k | 0 <= k < |log| && log[k].SaveEntry? :: (log[k].jti, log[k].device) in scope.saves)
    && (forall i, j | 0 <= i < j < |log| :: log[i].at <= log[j].at)
  }

  /** The id of user `v` and a colon begin the state key of the credential `j` of user `u`. */
  predicate Begins(v: string, u: string, j: string) {
    v + ":" <= Key(u, j)
  }

  /** The state key of a saved credential does not begin with another user's id and a colon. */
  ghost predicate KeysApart(scope: Scope) {
    forall p, v {:trigger Begins(v, p.1.user, p.0)} | p in scope.saves && v in scope.users && v != p.1.user ::
      !Begins(v, p.1.user, p.0)
  }

  /** Credential `j` can be saved from two devices of a user, and another one from the first of them. */
  predicate Conflict(j: string, c: Device, j2: string, c2: Device, k: string, c3: Device) {
    j == j2 && j != "" && c.user == c2.user && c != c2 && k != j && c3 == c
  }

  /** A credential that can be saved from two devices is the only one that can be saved from either. */
  ghost predicate DevicesApart(scope: Scope) {
    forall p, q, r {:trigger Conflict(p.0, p.1, q.0, q.1, r.0, r.1)}
      | p in scope.saves && q in scope.saves && r in scope.saves ::
      !Conflict(p.0, p.1, q.0, q.1, r.0, r.1)
  }

  lemma KeyStart(u: string, j: string)
    ensures u + ":" <= Key(u, j)
    ensures Key(u, j) == u + ":" + j
  {
  }

  lemma SameUserSameJti(u: string, j: string, j': string)
    requires Key(u, j) == Key(u, j')
    ensures j == j'
  {
    assert j == Key(u, j)[|u| + 1..];
    assert j' == Key(u, j')[|u| + 1..];
  }

  lemma SameKeySameUser(scope: Scope, j: string, c: Device, v: string, j': string)
    requires KeysApart(scope) && (j, c) in scope.saves && v in scope.users && Key(c.user, j) == Key(v, j')
    ensures v == c.user && j' == j
  {
    KeyStart(v, j');
    assert Begins(v, (j, c).1.user, (j, c).0);
    SameUserSameJti(v, j, j');
  }
}

/** The store refines the history. */
module TokenStoreRefinement {
  import opened Options
  import opened TokenStoreModel

  /** The save that stands for a credential, if any. */
  function Standing(log: seq<Entry>, n: nat, user: string, jti: string): Option<Entry>
    requires n <= |log|
  {
    if n == 0 then None
    else if IsSaveOf(log[n - 1], user, jti) then Some(log[n - 1])
    else
      var before := Standing(log, n - 1, user, jti);
      if before.Some? && before.value.SaveEntry? && Ends(log[n - 1], before.value) then None else before
  }

  lemma {:induction false} StandingIsSave(log: seq<Entry>, n: nat, user: string, jti: string)
    requires n <= |log|
    ensures var st := Standing(log, n, user, jti);
            st.Some? ==> IsSaveOf(st.value, user, jti) && exists k :: 0 <= k < n && log[k] == st.value
  {
    if n > 0 {
      StandingIsSave(log, n - 1, user, jti);
    }
  }

  /** The standing save is the one that stands by the declarative reading, and there is no other. */
  lemma {:induction false} StandingIff(log: seq<Entry>, n: nat, user: string, jti: string, k: nat)
    requires n <= |log| && StandsSince(log, n, user, jti, k)
    ensures Standing(log, n, user, jti) == Some(log[k])
  {
    if k < n - 1 {
      assert StandsSince(log, n - 1, user, jti, k);
      StandingIff(log, n - 1, user, jti, k);
      assert !Ends(log[n - 1], log[k]);
    }
  }

  lemma {:induction false} StandingStands(log: seq<Entry>, n: nat, user: string, jti: string) returns (k: nat)
    requires n <= |log| && Standing(log, n, user, jti).Some?
    ensures StandsSince(log, n, user, jti, k) && log[k] == Standing(log, n, user, jti).value
  {
    if IsSaveOf(log[n - 1], user, jti) {
      k := n - 1;
    } else {
      k := StandingStands(log, n - 1, user, jti);
    }
  }

  function ExpiryOf(save: Entry): real {
    if save.SaveEntry? then save.at + save.ttl else 0.0
  }

  lemma ValidIff(log: seq<Entry>, n: nat, user: string, jti: string, t: real)
    requires n <= |log|
    ensures ValidAt(log, n, user, jti, t)
       <==> Standing(log, n, user, jti).Some? && t < ExpiryOf(Standing(log, n, user, jti).value)
  {
    if k: nat :| StandsSince(log, n, user, jti, k) && t < log[k].at + log[k].ttl {
      StandingIff(log, n, user, jti, k);
    }
    if Standing(log, n, user, jti).Some? {
      var k := StandingStands(log, n, user, jti);
      assert StandsSince(log, n, user, jti, k) && ExpiryOf(log[k]) == log[k].at + log[k].ttl;
    }
  }

  // ---- the invariant ----

  /** One credential: a stored one is the standing one with its expiry, a missing one has ended or run out; the jti
      set and the state map agree; one that is still good is the credential of its device. */
  ghost predicate CredentialOk(s: State, st: Option<Entry>, user: string, jti: string, now: real) {
    && (Key(user, jti) in s.states <==> jti in JtisOf(s, user))
    && (Key(user, jti) in s.states ==> st.Some? && s.states[Key(user, jti)] == ExpiryOf(st.value))
    && (Key(user, jti) !in s.states && st.Some? ==> ExpiryOf(st.value) <= now)
    && (st.Some? && now < ExpiryOf(st.value) && jti != "" ==>
          st.value.SaveEntry? && st.value.device in s.deviceMap && s.deviceMap[st.value.device] == jti)
  }

  ghost predicate CredentialsOk(s: State, log: seq<Entry>, n: nat, scope: Scope, now: real)
    requires n <= |log|
  {
    forall u, j | u in scope.users :: CredentialOk(s, Standing(log, n, u, j), u, j, now)
  }

  /** Device entries come from saves of the history. */
  ghost predicate DevicesOk(s: State, log: seq<Entry>, n: nat)
    requires n <= |log|
  {
    forall c | c in s.deviceMap ::
      exists k :: 0 <= k < n && log[k].SaveEntry? && log[k].device == c && log[k].jti == s.deviceMap[c]
  }

  ghost predicate StoreOk(s: State, log: seq<Entry>, n: nat, scope: Scope, now: real)
    requires n <= |log|
  {
    CredentialsOk(s, log, n, scope, now) && DevicesOk(s, log, n)
  }

  // ---- clean-up keeps it ----

  /** The user's recorded jtis are saved ones with an entry in the state map. */
  ghost predicate JtisSaved(s: State, scope: Scope, user: string) {
    forall x | x in JtisOf(s, user) :: Key(user, x) in s.states && exists c :: (x, c) in scope.saves && c.user == user
  }

  /** Which keys clean-up takes out: those of the user's expired credentials, nobody else's. */
  lemma PrunedKeys(s: State, scope: Scope, user: string, now: real, u: string, j: string)
    requires KeysApart(scope) && u in scope.users && JtisSaved(s, scope, user)
    ensures Key(u, j) in KeysOf(user, Expired(s, user, now)) <==> u == user && j in Expired(s, user, now)
  {
    if Key(u, j) in KeysOf(user, Expired(s, user, now)) {
      var x :| x in Expired(s, user, now) && Key(user, x) == Key(u, j);
      var c :| (x, c) in scope.saves && c.user == user;
      SameKeySameUser(scope, x, c, u, j);
    }
  }

  lemma PruneKeepsCredential(s: State, st: Option<Entry>, scope: Scope, user: string, u: string, j: string,
                             now: real, now': real)
    requires KeysApart(scope) && u in scope.users && now <= now'
    requires CredentialOk(s, st, u, j, now) && JtisSaved(s, scope, user)
    requires st.Some? ==> IsSaveOf(st.value, u, j)
    ensures CredentialOk(Pruned(s, user, now'), st, u, j, now')
    ensures u == user && Key(u, j) in Pruned(s, user, now').states ==> Pruned(s, user, now').states[Key(u, j)] > now'
  {
    PrunedKeys(s, scope, user, now', u, j);
  }

  lemma StandingIsScoped(log: seq<Entry>, n: nat, scope: Scope, u: string, j: string)
    requires n <= |log| && Orderly(log, scope) && Standing(log, n, u, j).Some?
    ensures IsSaveOf(Standing(log, n, u, j).value, u, j) && (j, Standing(log, n, u, j).value.device) in scope.saves
  {
    StandingIsSave(log, n, u, j);
  }

  lemma StoredIsScoped(s: State, log: seq<Entry>, n: nat, scope: Scope, u: string, j: string, now: real)
    requires n <= |log| && Orderly(log, scope) && u in scope.users && CredentialsOk(s, log, n, scope, now)
    requires Key(u, j) in s.states
    ensures exists c :: (j, c) in scope.saves && c.user == u
  {
    assert CredentialOk(s, Standing(log, n, u, j), u, j, now);
    StandingIsScoped(log, n, scope, u, j);
  }

  lemma JtisAreSaved(s: State, log: seq<Entry>, n: nat, scope: Scope, user: string, now: real)
    requires n <= |log| && Orderly(log, scope) && user in scope.users && CredentialsOk(s, log, n, scope, now)
    ensures JtisSaved(s, scope, user)
  {
    forall x | x in JtisOf(s, user)
      ensures Key(user, x) in s.states && exists c :: (x, c) in scope.saves && c.user == user
    {
      assert CredentialOk(s, Standing(log, n, user, x), user, x, now);
      StoredIsScoped(s, log, n, scope, user, x, now);
    }
  }

  lemma PruneKeepsOk(s: State, log: seq<Entry>, n: nat, scope: Scope, now: real, user: string, now': real)
    requires n <= |log| && Orderly(log, scope) && KeysApart(scope) && user in scope.users && now <= now'
    requires StoreOk(s, log, n, scope, now)
    ensures StoreOk(Pruned(s, user, now'), log, n, scope, now')
    ensures forall j | Key(user, j) in Pruned(s, user, now').states :: Pruned(s, user, now').states[Key(user, j)] > now'
  {
    JtisAreSaved(s, log, n, scope, user, now);
    forall u, j | u in scope.users
      ensures CredentialOk(Pruned(s, user, now'), Standing(log, n, u, j), u, j, now')
      ensures u == user && Key(u, j) in Pruned(s, user, now').states ==> Pruned(s, user, now').states[Key(u, j)] > now'
    {
      assert CredentialOk(s, Standing(log, n, u, j), u, j, now);
      StandingIsSave(log, n, u, j);
      PruneKeepsCredential(s, Standing(log, n, u, j), scope, user, u, j, now, now');
    }
  }

  // ---- saving keeps it ----

  /** The device entry names a credential that the history saved from this very device; saving another one here means
      that it was saved from here last. */
  lemma DeviceOfStanding(s: State, log: seq<Entry>, n: nat, scope: Scope, device: Device, jti: string)
    requires n <= |log| && Orderly(log, scope) && DevicesApart(scope) && DevicesOk(s, log, n)
    requires Replaced(s, jti, device).Some? && (jti, device) in scope.saves
    ensures (s.deviceMap[device], device) in scope.saves
    ensures var st := Standing(log, n, device.user, s.deviceMap[device]);
            st.Some? ==> st.value.SaveEntry? && st.value.device == device
  {
    var out := s.deviceMap[device];
    var k :| 0 <= k < n && log[k].SaveEntry? && log[k].device == device && log[k].jti == out;
    assert (log[k].jti, log[k].device) in scope.saves;
    if Standing(log, n, device.user, out).Some? {
      var st := Standing(log, n, device.user, out).value;
      StandingIsScoped(log, n, scope, device.user, out);
      assert !Conflict((out, device).0, (out, device).1, (out, st.device).0, (out, st.device).1, (jti, device).0,
                       (jti, device).1);
    }
  }

  /** The standing save of a credential after one more save. */
  function StandingAfterSave(st: Option<Entry>, e: Entry, u: string, j: string): Option<Entry> {
    if IsSaveOf(e, u, j) then Some(e)
    else if st.Some? && st.value.SaveEntry? && Ends(e, st.value) then None
    else st
  }

  lemma PutKeepsCredential(s: State, st: Option<Entry>, scope: Scope, e: Entry, u: string, j: string)
    requires KeysApart(scope) && e.SaveEntry? && (e.jti, e.device) in scope.saves && u in scope.users
    requires CredentialOk(s, st, u, j, e.at)
    requires Key(e.device.user, j) in s.states ==> s.states[Key(e.device.user, j)] > e.at
    requires st.Some? ==> IsSaveOf(st.value, u, j)
    requires Replaced(s, e.jti, e.device).Some? ==> (s.deviceMap[e.device], e.device) in scope.saves
    requires Replaced(s, e.jti, e.device) == Some(j) && u == e.device.user && st.Some? ==> st.value.device == e.device
    ensures CredentialOk(Put(s, e.jti, e.at + e.ttl, e.device), StandingAfterSave(st, e, u, j), u, j, e.at)
  {
    var user, out := e.device.user, Replaced(s, e.jti, e.device);
    if Key(u, j) == Key(user, e.jti) {
      SameKeySameUser(scope, e.jti, e.device, u, j);
    }
    if out.Some? && Key(u, j) == Key(user, out.value) {
      SameKeySameUser(scope, out.value, e.device, u, j);
    }
  }

  lemma SaveKeepsDevices(p: State, log: seq<Entry>, n: nat)
    requires n < |log| && log[n].SaveEntry? && DevicesOk(p, log, n)
    ensures DevicesOk(Put(p, log[n].jti, log[n].at + log[n].ttl, log[n].device), log, n + 1)
  {
  }

  lemma PutKeepsCredentials(p: State, s': State, log: seq<Entry>, n: nat, scope: Scope)
    requires n < |log| && Orderly(log, scope) && KeysApart(scope) && DevicesApart(scope) && log[n].SaveEntry?
    requires StoreOk(p, log, n, scope, log[n].at)
    requires forall j | Key(log[n].device.user, j) in p.states :: p.states[Key(log[n].device.user, j)] > log[n].at
    requires s' == Put(p, log[n].jti, log[n].at + log[n].ttl, log[n].device)
    ensures CredentialsOk(s', log, n + 1, scope, log[n].at)
  {
    var e, m := log[n], n + 1;
    assert UserOf(e) in scope.users && (e.jti, e.device) in scope.saves;
    if Replaced(p, e.jti, e.device).Some? {
      DeviceOfStanding(p, log, n, scope, e.device, e.jti);
    }
    forall u, j | u in scope.users ensures CredentialOk(s', Standing(log, m, u, j), u, j, e.at) {
      var st := Standing(log, n, u, j);
      assert CredentialOk(p, st, u, j, e.at);
      StandingIsSave(log, n, u, j);
      PutKeepsCredential(p, st, scope, e, u, j);
    }
  }

  lemma SaveKeepsOk(s: State, log: seq<Entry>, n: nat, scope: Scope, now: real)
    requires n < |log| && Orderly(log, scope) && KeysApart(scope) && DevicesApart(scope)
    requires log[n].SaveEntry? && now <= log[n].at
    requires StoreOk(s, log, n, scope, now)
    ensures StoreOk(Step(s, log[n]), log, n + 1, scope, log[n].at)
  {
    var e := log[n];
    var p := Pruned(s, e.device.user, e.at);
    assert UserOf(e) in scope.users;
    PruneKeepsOk(s, log, n, scope, now, e.device.user, e.at);
    PutKeepsCredentials(p, Step(s, e), log, n, scope);
    SaveKeepsDevices(p, log, n);
  }

  // ---- revoking and looking up keep it ----

  lemma RemoveKeepsCredential(s: State, st: Option<Entry>, st': Option<Entry>, scope: Scope, user: string,
                              jti: string, u: string, j: string, now: real)
    requires KeysApart(scope) && u in scope.users
    requires Key(user, jti) in s.states ==> exists c :: (jti, c) in scope.saves && c.user == user
    requires CredentialOk(s, st, u, j, now)
    requires if u == user && j == jti then st'.None? || (st' == st && ExpiryOf(st.value) <= now) else st' == st
    ensures CredentialOk(Removed(s, user, jti), st', u, j, now)
  {
    if Key(user, jti) in s.states && Key(u, j) == Key(user, jti) {
      var c :| (jti, c) in scope.saves && c.user == user;
      SameKeySameUser(scope, jti, c, u, j);
    }
  }

  lemma LaterIsOk(s: State, st: Option<Entry>, u: string, j: string, now: real, now': real)
    requires CredentialOk(s, st, u, j, now) && now <= now'
    ensures CredentialOk(s, st, u, j, now')
  {
  }

  lemma OtherKeepsOk(s: State, log: seq<Entry>, n: nat, scope: Scope, now: real)
    requires n < |log| && Orderly(log, scope) && KeysApart(scope) && !log[n].SaveEntry? && now <= log[n].at
    requires StoreOk(s, log, n, scope, now)
    ensures StoreOk(Step(s, log[n]), log, n + 1, scope, log[n].at)
  {
    var e, m := log[n], n + 1;
    assert UserOf(e) in scope.users;
    if Key(e.user, e.jti) in s.states {
      StoredIsScoped(s, log, n, scope, e.user, e.jti, now);
    }
    forall u, j | u in scope.users ensures CredentialOk(Step(s, e), Standing(log, m, u, j), u, j, e.at) {
      var st, st' := Standing(log, n, u, j), Standing(log, m, u, j);
      assert CredentialOk(s, st, u, j, now);
      StandingIsSave(log, n, u, j);
      LaterIsOk(s, st, u, j, now, e.at);
      if e.RevokeEntry? || !Answer(s, e.user, e.jti, e.at) {
        RemoveKeepsCredential(s, st, st', scope, e.user, e.jti, u, j, e.at);
      }
    }
    assert DevicesOk(s, log, n + 1);
  }

  // ---- whole histories ----

  /** The time of the last of the first `n` operations, or of the first one. */
  function TimeAt(log: seq<Entry>, n: nat): real
    requires n <= |log|
  {
    if log == [] then 0.0 else if n == 0 then log[0].at else log[n - 1].at
  }

  lemma EmptyIsOk(log: seq<Entry>, scope: Scope, now: real)
    ensures StoreOk(EMPTY, log, 0, scope, now)
  {
  }

  lemma StepKeepsOk(s: State, s': State, log: seq<Entry>, n: nat, scope: Scope, now: real)
    requires n < |log| && Orderly(log, scope) && KeysApart(scope) && DevicesApart(scope) && now <= log[n].at
    requires StoreOk(s, log, n, scope, now) && s' == Step(s, log[n])
    ensures StoreOk(s', log, n + 1, scope, log[n].at)
  {
    if log[n].SaveEntry? {
      SaveKeepsOk(s, log, n, scope, now);
    } else {
      OtherKeepsOk(s, log, n, scope, now);
    }
  }

  lemma {:induction false} ReplayOk(log: seq<Entry>, n: nat, scope: Scope)
    requires n <= |log| && Orderly(log, scope) && KeysApart(scope) && DevicesApart(scope)
    ensures StoreOk(Replay(log, n), log, n, scope, TimeAt(log, n))
  {
    if n == 0 {
      EmptyIsOk(log, scope, TimeAt(log, 0));
    } else {
      ReplayOk(log, n - 1, scope);
      StepKeepsOk(Replay(log, n - 1), Replay(log, n), log, n - 1, scope, TimeAt(log, n - 1));
    }
  }

  lemma ApartAnswersRight(log: seq<Entry>, scope: Scope)
    requires Orderly(log, scope) && KeysApart(scope) && DevicesApart(scope)
    ensures AnswersRight(log)
  {
    forall k | 0 <= k < |log| && log[k].CheckEntry?
      ensures Answer(Replay(log, k), log[k].user, log[k].jti, log[k].at)
              == ValidAt(log, k, log[k].user, log[k].jti, log[k].at)
    {
      var u, j := log[k].user, log[k].jti;
      assert UserOf(log[k]) in scope.users;
      ReplayOk(log, k, scope);
      assert CredentialOk(Replay(log, k), Standing(log, k, u, j), u, j, TimeAt(log, k));
      ValidIff(log, k, u, j, log[k].at);
    }
  }

  lemma FirstSave(log: seq<Entry>, j: string, c: Device)
    requires log != [] && log[0] == SaveEntry(j, 10.0, c, 0.0)
    ensures Replay(log, 1) == State(map[Key(c.user, j) := 10.0], map[c := j], map[c.user := {j}])
  {
    assert Replay(log, 0) == EMPTY;
    assert JtisOf(EMPTY, c.user) + {j} == {j};
  }

  /** When another user's id and a colon begin the key of a saved credential, a look-up of something that nobody saved
      succeeds. */
  lemma SharedKeyAnswersWrong(scope: Scope, j: string, c: Device, v: string) returns (log: seq<Entry>)
    requires (j, c) in scope.saves && c.user in scope.users && v in scope.users && v != c.user
    requires v + ":" <= Key(c.user, j)
    ensures Orderly(log, scope) && !AnswersRight(log)
  {
    var j' := Key(c.user, j)[|v| + 1..];
    assert Key(v, j') == Key(c.user, j);
    log := [SaveEntry(j, 10.0, c, 0.0), CheckEntry(v, j', 1.0)];
    FirstSave(log, j, c);
    assert Standing(log, 0, v, j') == None;
    assert Standing(log, 1, v, j') == None;
    ValidIff(log, 1, v, j', 1.0);
    assert log[1].CheckEntry?;
  }

  lemma SecondSave(log: seq<Entry>, j: string, c: Device, c2: Device)
    requires |log| > 1 && log[0] == SaveEntry(j, 10.0, c, 0.0) && log[1] == SaveEntry(j, 10.0, c2, 1.0)
    requires c.user == c2.user && c != c2
    ensures Replay(log, 2) == State(map[Key(c.user, j) := 11.0], map[c := j, c2 := j], map[c.user := {j}])
  {
    FirstSave(log, j, c);
    var s := Replay(log, 1);
    assert Expired(s, c.user, 1.0) == {} && Stale(s, c.user, {j}) == {};
    assert KeysOf(c.user, Expired(s, c.user, 1.0)) == {};
    assert {j} - {} == {j} && {j} + {j} == {j};
    assert Pruned(s, c.user, 1.0) == s;
  }

  lemma SavedOver(s: State, j: string, c: Device, c2: Device, k: string)
    requires s == State(map[Key(c.user, j) := 11.0], map[c := j, c2 := j], map[c.user := {j}])
    requires c.user == c2.user && j != "" && k != j
    ensures Key(c.user, j) !in Save(s, k, 10.0, c, 2.0).states
  {
    assert Expired(s, c.user, 2.0) == {} && Stale(s, c.user, {j}) == {};
    assert KeysOf(c.user, Expired(s, c.user, 2.0)) == {};
    assert {j} - {} == {j};
    assert Pruned(s, c.user, 2.0) == s;
    if Key(c.user, j) == Key(c.user, k) {
      SameUserSameJti(c.user, j, k);
    }
  }

  lemma ThirdSave(log: seq<Entry>, j: string, c: Device, c2: Device, k: string)
    requires |log| > 2 && log[0] == SaveEntry(j, 10.0, c, 0.0) && log[1] == SaveEntry(j, 10.0, c2, 1.0)
    requires log[2] == SaveEntry(k, 10.0, c, 2.0)
    requires c.user == c2.user && c != c2 && j != "" && k != j
    ensures Key(c.user, j) !in Replay(log, 3).states
  {
    SecondSave(log, j, c, c2);
    SavedOver(Replay(log, 2), j, c, c2, k);
  }

  lemma ThreeSavesOrderly(scope: Scope, j: string, c: Device, c2: Device, k: string)
    requires (j, c) in scope.saves && (j, c2) in scope.saves && (k, c) in scope.saves && c.user in scope.users
    requires c.user == c2.user
    ensures Orderly([SaveEntry(j, 10.0, c, 0.0), SaveEntry(j, 10.0, c2, 1.0), SaveEntry(k, 10.0, c, 2.0),
                     CheckEntry(c.user, j, 3.0)], scope)
  {
  }

  /** Where another credential can be saved on the first of a credential's two devices, that save takes out the
      credential although it has moved to the second. */
  lemma MovedAnswersWrong(scope: Scope, j: string, c: Device, c2: Device, k: string) returns (log: seq<Entry>)
    requires (j, c) in scope.saves && (j, c2) in scope.saves && (k, c) in scope.saves && c.user in scope.users
    requires Conflict(j, c, j, c2, k, c)
    ensures Orderly(log, scope) && !AnswersRight(log)
  {
    log := [SaveEntry(j, 10.0, c, 0.0), SaveEntry(j, 10.0, c2, 1.0), SaveEntry(k, 10.0, c, 2.0),
            CheckEntry(c.user, j, 3.0)];
    ThreeSavesOrderly(scope, j, c, c2, k);
    ThirdSave(log, j, c, c2, k);
    assert StandsSince(log, 3, c.user, j, 1);
    assert ValidAt(log, 3, c.user, j, 3.0);
    assert log[3].CheckEntry?;
  }

  /** The refinement, with its exact condition: all histories in a scope are answered right if and only if no saved
      credential's key begins with another user's id and a colon, and no credential moves between devices that others
      use. */
  lemma AnswersRightIff(scope: Scope)
    requires WellScoped(scope)
    ensures (forall log | Orderly(log, scope) :: AnswersRight(log)) <==> KeysApart(scope) && DevicesApart(scope)
  {
    if KeysApart(scope) && DevicesApart(scope) {
      forall log | Orderly(log, scope) ensures AnswersRight(log) {
        ApartAnswersRight(log, scope);
      }
    } else if !KeysApart(scope) {
      var p, v :| p in scope.saves && v in scope.users && v != p.1.user && Begins(v, p.1.user, p.0);
      assert (p.0, p.1) == p;
      var log := SharedKeyAnswersWrong(scope, p.0, p.1, v);
    } else {
      var p, q, r :| p in scope.saves && q in scope.saves && r in scope.saves && Conflict(p.0, p.1, q.0, q.1, r.0, r.1);
      assert (p.0, p.1) == p && (q.0, q.1) == q && (r.0, r.1) == r;
      var log := MovedAnswersWrong(scope, p.0, p.1, q.1, r.0);
    }
  }

  /** Entry `k` saved a non-empty credential that stands and has not run out at time `t`. */
  ghost predicate IsGood(log: seq<Entry>, n: nat, k: nat, t: real)
    requires k < n <= |log|
  {
    && log[k].SaveEntry? && log[k].jti != ""
    && StandsSince(log, n, UserOf(log[k]), log[k].jti, k) && t < ExpiryOf(log[k])
  }

  /** A credential that is good by the history is the current one of the very device it was saved from. */
  lemma GoodIsCurrent(log: seq<Entry>, n: nat, scope: Scope, t: real, k: nat)
    requires k < n <= |log| && Orderly(log, scope) && KeysApart(scope) && DevicesApart(scope)
    requires IsGood(log, n, k, t) && t >= log[n - 1].at
    ensures log[k].device in Replay(log, n).deviceMap && Replay(log, n).deviceMap[log[k].device] == log[k].jti
  {
    var u, j := UserOf(log[k]), log[k].jti;
    ReplayOk(log, n, scope);
    StandingIff(log, n, u, j, k);
    assert CredentialOk(Replay(log, n), Standing(log, n, u, j), u, j, TimeAt(log, n));
  }
}

/** The store object: its methods change the three maps as the model says. */
module InMemoryJwtTokenStores {
  import opened Options
  import opened TokenStoreModel

  function DeviceOf(user: string, client: Option<string>, device: Option<string>): Device {
    Device(user, if client.Some? then client.value else "", if device.Some? then device.value else "")
  }

  /** Dropping other jtis of the user leaves this one's entry. */
  lemma KeyStays(user: string, j: string, gone: set<string>, before: map<string, real>, after: map<string, real>)
    requires j !in gone && after == before - KeysOf(user, gone)
    ensures Key(user, j) in after <==> Key(user, j) in before
    ensures Key(user, j) in after ==> after[Key(user, j)] == before[Key(user, j)]
  {
    if Key(user, j) in KeysOf(user, gone) {
      var x :| x in gone && Key(user, x) == Key(user, j);
      SameUserSameJti(user, x, j);
    }
  }

  class InMemoryJwtTokenStore {
    var states: map<string, real>
    var deviceMap: map<Device, string>
    var userJtis: map<string, set<string>>

    function View(): State
      reads this
    {
      State(states, deviceMap, userJtis)
    }

    constructor ()
      ensures View() == EMPTY
    {
      states, deviceMap, userJtis := map[], map[], map[];
    }

    /** Files a credential; returns the jti that the device held before, unless it is the same. */
    method SaveCredential(user: string, jti: string, ttl: real, client: Option<string>, device: Option<string>,
                          now: real)
      returns (oldJti: Option<string>)
      modifies this
      ensures View() == Save(old(View()), jti, ttl, DeviceOf(user, client, device), now)
      ensures var held := Pruned(old(View()), user, now).deviceMap;
              oldJti == if DeviceOf(user, client, device) in held && held[DeviceOf(user, client, device)] != jti
                         then Some(held[DeviceOf(user, client, device)]) else None
      ensures user + ":" + jti in states && states[user + ":" + jti] == now + ttl
      ensures user in userJtis && jti in userJtis[user]
      ensures var own := Device(user, client.UnwrapOr(""), device.UnwrapOr(""));
              own in deviceMap && deviceMap[own] == jti
    {
      PruneUser(user, now);
      var composite := DeviceOf(user, client, device);
      var held := if composite in deviceMap then Some(deviceMap[composite]) else None;
      PutCredential(jti, now + ttl, composite);
      oldJti := if held == Some(jti) then None else held;
    }

    method PutCredential(jti: string, expiry: real, composite: Device)
      modifies this
      ensures View() == Put(old(View()), jti, expiry, composite)
    {
      var user := composite.user;
      var jtis := if user in userJtis then userJtis[user] else {};
      if composite in deviceMap && deviceMap[composite] != "" && deviceMap[composite] != jti {
        var out := deviceMap[composite];
        states := states - {Key(user, out)};
        jtis := jtis - {out};
      }
      deviceMap := deviceMap[composite := jti];
      states := states[Key(user, jti) := expiry];
      userJtis := userJtis[user := jtis + {jti}];
    }

    method Exists(user: string, jti: string, now: real) returns (valid: bool)
      modifies this
      ensures valid <==> Answer(old(View()), user, jti, now)
      ensures View() == Checked(old(View()), user, jti, now)
      ensures valid ==> View() == old(View())
      ensures !valid ==> user + ":" + jti !in states
      ensures !valid && user + ":" + jti in old(states) ==> !(user in userJtis && jti in userJtis[user])
    {
      if Key(user, jti) !in states {
        return false;
      }
      if now < states[Key(user, jti)] {
        return true;
      }
      states := states - {Key(user, jti)};
      DiscardUserJti(user, jti);
      return false;
    }

    method Revoke(user: string, jti: string) returns (found: bool)
      modifies this
      ensures found <==> Key(user, jti) in old(states)
      ensures View() == Removed(old(View()), user, jti)
    {
      if Key(user, jti) !in states {
        return false;
      }
      states := states - {Key(user, jti)};
      DiscardUserJti(user, jti);
      return true;
    }

    /** Drops the user's expired credentials one by one, then the device entries left pointing at dead ones. */
    method PruneUser(user: string, now: real)
      modifies this
      ensures View() == Pruned(old(View()), user, now)
    {
      var jtis := if user in userJtis then userJtis[user] else {};
      if jtis == {} {
        return;
      }
      var live := DropExpired(user, jtis, now);
      if live == {} {
        userJtis := userJtis - {user};
        return;
      }
      userJtis := userJtis[user := live];
      deviceMap := deviceMap - set c | c in deviceMap && c.user == user && deviceMap[c] !in live;
    }

    method DropExpired(user: string, jtis: set<string>, now: real) returns (live: set<string>)
      requires jtis == JtisOf(View(), user)
      modifies this`states
      ensures live == jtis - Expired(old(View()), user, now)
      ensures states == old(states) - KeysOf(user, Expired(old(View()), user, now))
    {
      live := jtis;
      var rest := jtis;
      ghost var gone := {};
      while rest != {}
        invariant rest <= jtis && live == jtis - gone && gone <= jtis && gone !! rest
        invariant states == old(states) - KeysOf(user, gone)
        invariant forall j | j in jtis - rest :: j in gone <==> j in Expired(old(View()), user, now)
      {
        var j :| j in rest;
        var expiry := if Key(user, j) in states then states[Key(user, j)] else 0.0;
        KeyStays(user, j, gone, old(states), states);
        if expiry <= now {
          states := states - {Key(user, j)};
          live := live - {j};
          assert KeysOf(user, gone + {j}) == KeysOf(user, gone) + {Key(user, j)};
          gone := gone + {j};
        }
        rest := rest - {j};
      }
      assert gone == Expired(old(View()), user, now);
    }

    method DiscardUserJti(user: string, jti: string)
      modifies this`userJtis
      ensures View() == Discarded(old(View()), user, jti)
    {
      if user !in userJtis || userJtis[user] == {} {
        return;
      }
      var jtis := userJtis[user] - {jti};
      userJtis := if jtis == {} then userJtis - {user} else userJtis[user := jtis];
    }
  }
}

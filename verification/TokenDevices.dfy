/** The three maps among themselves: the jti sets against the state map, and the credentials against the devices. */
module TokenStoreDevices {
  import opened Options
  import opened TokenStoreModel
  import Refinement = TokenStoreRefinement

  // ---- every credential is the current one of the device it was saved from last ----

  /** The device of the last save of the credential. */
  function LastDevice(log: seq<Entry>, n: nat, user: string, jti: string): Option<Device>
    requires n <= |log|
  {
    if n == 0 then None
    else if IsSaveOf(log[n - 1], user, jti) then Some(log[n - 1].device)
    else LastDevice(log, n - 1, user, jti)
  }

  /** The credential is the current one of the user's device `last`. */
  predicate CurrentOn(s: State, user: string, jti: string, last: Option<Device>) {
    last.Some? && last.value.user == user && last.value in s.deviceMap && s.deviceMap[last.value] == jti
  }

  ghost predicate CurrentOk(s: State, log: seq<Entry>, n: nat)
    requires n <= |log|
  {
    forall u, j | j in JtisOf(s, u) && j != "" :: CurrentOn(s, u, j, LastDevice(log, n, u, j))
  }

  lemma PruneKeepsCurrent(s: State, user: string, now: real, u: string, j: string, last: Option<Device>)
    requires j in JtisOf(Pruned(s, user, now), u)
    requires j in JtisOf(s, u) ==> CurrentOn(s, u, j, last)
    ensures CurrentOn(Pruned(s, user, now), u, j, last)
  {
  }

  lemma PutKeepsCurrent(s: State, jti: string, expiry: real, device: Device, u: string, j: string,
                        last: Option<Device>)
    requires j in JtisOf(Put(s, jti, expiry, device), u) && j != ""
    requires j in JtisOf(s, u) ==> CurrentOn(s, u, j, last)
    ensures CurrentOn(Put(s, jti, expiry, device), u, j, if u == device.user && j == jti then Some(device) else last)
  {
  }

  lemma StepKeepsCurrent(s: State, log: seq<Entry>, n: nat)
    requires n < |log| && CurrentOk(s, log, n)
    ensures CurrentOk(Step(s, log[n]), log, n + 1)
  {
    var s', e := Step(s, log[n]), log[n];
    forall u, j | j in JtisOf(s', u) && j != "" ensures CurrentOn(s', u, j, LastDevice(log, n + 1, u, j)) {
      var last := LastDevice(log, n, u, j);
      if e.SaveEntry? {
        var p := Pruned(s, e.device.user, e.at);
        if j in JtisOf(p, u) {
          PruneKeepsCurrent(s, e.device.user, e.at, u, j, last);
        }
        PutKeepsCurrent(p, e.jti, e.at + e.ttl, e.device, u, j, last);
      }
    }
  }

  /** After any history at all, a recorded non-empty jti is the current one of the device that it was last saved
      from. */
  lemma {:induction false} RecordedIsCurrent(log: seq<Entry>, n: nat)
    requires n <= |log|
    ensures CurrentOk(Replay(log, n), log, n)
  {
    if n > 0 {
      RecordedIsCurrent(log, n - 1);
      StepKeepsCurrent(Replay(log, n - 1), log, n - 1);
    }
  }

  // ---- the jti sets hold what the state map holds ----

  predicate SetAgrees(s: State, user: string, jti: string) {
    Key(user, jti) in s.states <==> jti in JtisOf(s, user)
  }

  ghost predicate SetsAgree(s: State, scope: Scope) {
    forall u, j | u in scope.users :: SetAgrees(s, u, j)
  }

  ghost predicate IsSaved(scope: Scope, user: string, jti: string) {
    exists c :: (jti, c) in scope.saves && c.user == user
  }

  /** What the maps name was saved. */
  ghost predicate MapsSaved(s: State, scope: Scope) {
    && (forall u, j | u in scope.users && j in JtisOf(s, u) :: IsSaved(scope, u, j))
    && (forall c | c in s.deviceMap :: (s.deviceMap[c], c) in scope.saves)
  }

  ghost predicate MapsOk(s: State, scope: Scope) {
    SetsAgree(s, scope) && MapsSaved(s, scope)
  }

  lemma PruneKeepsMaps(s: State, scope: Scope, user: string, now: real)
    requires KeysApart(scope) && MapsOk(s, scope) && user in scope.users
    ensures MapsOk(Pruned(s, user, now), scope)
  {
    forall x | x in JtisOf(s, user)
      ensures Key(user, x) in s.states && exists c :: (x, c) in scope.saves && c.user == user
    {
      assert SetAgrees(s, user, x) && IsSaved(scope, user, x);
    }
    forall u, j | u in scope.users
      ensures SetAgrees(Pruned(s, user, now), u, j)
      ensures j in JtisOf(Pruned(s, user, now), u) ==> j in JtisOf(s, u)
    {
      assert SetAgrees(s, u, j);
      Refinement.PrunedKeys(s, scope, user, now, u, j);
    }
  }

  lemma PutKeepsMaps(s: State, scope: Scope, jti: string, expiry: real, device: Device)
    requires KeysApart(scope) && MapsOk(s, scope) && (jti, device) in scope.saves
    ensures MapsOk(Put(s, jti, expiry, device), scope)
  {
    var s', user, out := Put(s, jti, expiry, device), device.user, Replaced(s, jti, device);
    forall u, j | u in scope.users
      ensures SetAgrees(s', u, j) && (j in JtisOf(s', u) ==> IsSaved(scope, u, j))
    {
      assert SetAgrees(s, u, j);
      if Key(u, j) == Key(user, jti) {
        SameKeySameUser(scope, jti, device, u, j);
      }
      if out.Some? && Key(u, j) == Key(user, out.value) {
        SameKeySameUser(scope, out.value, device, u, j);
      }
    }
  }

  lemma RemoveKeepsMaps(s: State, scope: Scope, user: string, jti: string)
    requires KeysApart(scope) && MapsOk(s, scope) && user in scope.users
    ensures MapsOk(Removed(s, user, jti), scope)
  {
    assert SetAgrees(s, user, jti);
    forall u, j | u in scope.users
      ensures SetAgrees(Removed(s, user, jti), u, j)
      ensures j in JtisOf(Removed(s, user, jti), u) ==> j in JtisOf(s, u)
    {
      assert SetAgrees(s, u, j);
      if Key(user, jti) in s.states && Key(u, j) == Key(user, jti) {
        var c :| (jti, c) in scope.saves && c.user == user;
        SameKeySameUser(scope, jti, c, u, j);
      }
    }
  }

  lemma {:induction false} ReplayMapsOk(log: seq<Entry>, n: nat, scope: Scope)
    requires n <= |log| && Orderly(log, scope) && KeysApart(scope)
    ensures MapsOk(Replay(log, n), scope)
  {
    if n > 0 {
      ReplayMapsOk(log, n - 1, scope);
      var s, e := Replay(log, n - 1), log[n - 1];
      assert UserOf(e) in scope.users;
      match e {
        case SaveEntry(jti, ttl, device, at) =>
          PruneKeepsMaps(s, scope, device.user, at);
          PutKeepsMaps(Pruned(s, device.user, at), scope, jti, at + ttl, device);
        case RevokeEntry(user, jti, _) => RemoveKeepsMaps(s, scope, user, jti);
        case CheckEntry(user, jti, _) => RemoveKeepsMaps(s, scope, user, jti);
      }
    }
  }

  /** At every moment of the history the jti sets of the users in scope hold exactly what the state map holds. */
  ghost predicate SetsAgreeThroughout(log: seq<Entry>, scope: Scope) {
    forall n: nat | n <= |log| :: SetsAgree(Replay(log, n), scope)
  }

  lemma SharedKeyDisagrees(scope: Scope, j: string, c: Device, v: string) returns (log: seq<Entry>)
    requires (j, c) in scope.saves && c.user in scope.users && v in scope.users && v != c.user
    requires v + ":" <= Key(c.user, j)
    ensures Orderly(log, scope) && !SetsAgreeThroughout(log, scope)
  {
    var j' := Key(c.user, j)[|v| + 1..];
    assert Key(v, j') == Key(c.user, j);
    log := [SaveEntry(j, 10.0, c, 0.0)];
    Refinement.FirstSave(log, j, c);
    assert !SetAgrees(Replay(log, 1), v, j');
  }

  /** The jti sets and the state map agree in all histories of a scope if and only if no saved credential's key begins
      with another user's id and a colon. Credentials may move between devices in any way. */
  lemma SetsAgreeIff(scope: Scope)
    requires WellScoped(scope)
    ensures (forall log | Orderly(log, scope) :: SetsAgreeThroughout(log, scope)) <==> KeysApart(scope)
  {
    if KeysApart(scope) {
      forall log | Orderly(log, scope) ensures SetsAgreeThroughout(log, scope) {
        forall n: nat | n <= |log| ensures SetsAgree(Replay(log, n), scope) {
          ReplayMapsOk(log, n, scope);
        }
      }
    } else {
      var p, v :| p in scope.saves && v in scope.users && v != p.1.user && Begins(v, p.1.user, p.0);
      assert (p.0, p.1) == p;
      var log := SharedKeyDisagrees(scope, p.0, p.1, v);
    }
  }

  // ---- one live credential per device ----

  /** A credential that a look-up accepts is the current one of the device it was last saved from, so two that it
      accepts were last saved from different devices. */
  lemma OneLivePerDevice(log: seq<Entry>, n: nat, scope: Scope, user: string, j1: string, j2: string, t: real)
    requires n <= |log| && Orderly(log, scope) && KeysApart(scope) && user in scope.users
    requires j1 != j2 && j1 != "" && j2 != ""
    requires Answer(Replay(log, n), user, j1, t) && Answer(Replay(log, n), user, j2, t)
    ensures CurrentOn(Replay(log, n), user, j1, LastDevice(log, n, user, j1))
    ensures CurrentOn(Replay(log, n), user, j2, LastDevice(log, n, user, j2))
    ensures LastDevice(log, n, user, j1) != LastDevice(log, n, user, j2)
  {
    ReplayMapsOk(log, n, scope);
    RecordedIsCurrent(log, n);
    assert SetAgrees(Replay(log, n), user, j1) && SetAgrees(Replay(log, n), user, j2);
  }

  /** The user's devices on record. */
  function DevicesOf(s: State, user: string): set<Device> {
    set c | c in s.deviceMap && c.user == user
  }

  lemma {:induction false} NoMoreThan(s: State, jtis: set<string>, devices: set<Device>)
    requires forall j | j in jtis :: exists c :: c in devices && c in s.deviceMap && s.deviceMap[c] == j
    ensures |jtis| <= |devices|
  {
    if jtis != {} {
      var j :| j in jtis;
      var c :| c in devices && c in s.deviceMap && s.deviceMap[c] == j;
      NoMoreThan(s, jtis - {j}, devices - {c});
    }
  }

  /** After any history at all, a user has no more recorded non-empty jtis than devices on record. */
  lemma NoMoreThanDevices(log: seq<Entry>, n: nat, user: string)
    requires n <= |log|
    ensures |JtisOf(Replay(log, n), user) - {""}| <= |DevicesOf(Replay(log, n), user)|
  {
    var s := Replay(log, n);
    RecordedIsCurrent(log, n);
    forall j | j in JtisOf(s, user) - {""}
      ensures exists c :: c in DevicesOf(s, user) && c in s.deviceMap && s.deviceMap[c] == j
    {
      assert LastDevice(log, n, user, j).value in DevicesOf(s, user);
    }
    NoMoreThan(s, JtisOf(s, user) - {""}, DevicesOf(s, user));
  }
}

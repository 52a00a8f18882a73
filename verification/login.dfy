/** The guard that the login handlers put around the two limiters, and the one around the 2FA code. A
    request asks at one time and records the outcome at a later one; what other requests do in
    between is the subject of BruteForce, where these two halves are moves of their own. */
module Login {
  import opened Prelude
  import opened Security
  import opened LimiterRuns
  import opened BruteForce

  datatype Reply = Blocked(until: int) | Rejected | Accepted

  /** What one limiter holds after a login that asked it and got this reply. */
  function AfterLogin(p: Params, e: Entries, reply: Reply, key: string, now: int, later: int): Entries {
    var asked := AfterAllowed(p, e, key, now);
    match reply
    case Blocked(_) => asked
    case Rejected => AfterFail(p, asked, key, later)
    case Accepted => AfterReset(asked, key)
  }

  /** The handlers' first part; the answer is until when the request is refused, if it is. */
  method Ask(limIP: Limiter, limUser: Limiter, ipKey: string, userKey: string, now: int) returns (refused: Option<int>)
    requires limIP != limUser && limIP.Valid() && limUser.Valid() && limIP.cells !! limUser.cells
    modifies limIP, limUser
    ensures limIP.Valid() && limUser.Valid() && limIP.cells == old(limIP.cells) && limUser.cells == old(limUser.cells)
    ensures limIP.table == AfterAllowed(limIP.params, old(limIP.table), ipKey, now)
    ensures limUser.table == if LockedAt(old(limIP.table), ipKey, now) then old(limUser.table)
                             else AfterAllowed(limUser.params, old(limUser.table), userKey, now)
    ensures var ip, user := old(limIP.table), old(limUser.table);
            refused == if LockedAt(ip, ipKey, now) then Some(ip[ipKey].lockedUntil)
                       else if LockedAt(user, userKey, now) then Some(user[userKey].lockedUntil)
                       else None
  {
    var ok, until := limIP.Allowed(ipKey, now);
    if !ok {
      return Some(until);
    }
    ok, until := limUser.Allowed(userKey, now);
    if !ok {
      return Some(until);
    }
    return None;
  }

  /** The handlers' last part, once the credentials are checked. */
  method RecordOutcome(limIP: Limiter, limUser: Limiter, ipKey: string, userKey: string, right: bool, later: int)
    requires limIP != limUser && limIP.Valid() && limUser.Valid() && limIP.cells !! limUser.cells
    modifies limIP, limIP.cells, limUser, limUser.cells
    ensures limIP.Valid() && limUser.Valid()
    ensures limIP.table == if right then AfterReset(old(limIP.table), ipKey)
                           else AfterFail(limIP.params, old(limIP.table), ipKey, later)
    ensures limUser.table == if right then AfterReset(old(limUser.table), userKey)
                             else AfterFail(limUser.params, old(limUser.table), userKey, later)
  {
    if !right {
      var _ := limIP.Fail(ipKey, later);
      var _ := limUser.Fail(userKey, later);
      return;
    }
    limIP.Reset(ipKey);
    limUser.Reset(userKey);
  }

  /** handleLocalLogin and handleLDAPLogin, from the first Allowed to the last Fail or Reset, when no
      other request comes in between; `right` is whether the credentials check out. */
  method PasswordLogin(limIP: Limiter, limUser: Limiter, ipKey: string, userKey: string, right: bool,
                       now: int, later: int)
      returns (reply: Reply)
    requires limIP != limUser && limIP.Valid() && limUser.Valid() && limIP.cells !! limUser.cells
    modifies limIP, limIP.cells, limUser, limUser.cells
    ensures limIP.Valid() && limUser.Valid()
    ensures reply.Blocked? <==> LockedAt(old(limIP.table), ipKey, now) || LockedAt(old(limUser.table), userKey, now)
    ensures reply.Blocked? ==>
      reply.until == if LockedAt(old(limIP.table), ipKey, now) then old(limIP.table)[ipKey].lockedUntil
                     else old(limUser.table)[userKey].lockedUntil
    ensures !reply.Blocked? ==> (reply.Accepted? <==> right)
    ensures limIP.table == AfterLogin(limIP.params, old(limIP.table), reply, ipKey, now, later)
    ensures limUser.table == if LockedAt(old(limIP.table), ipKey, now) then old(limUser.table)
                             else AfterLogin(limUser.params, old(limUser.table), reply, userKey, now, later)
  {
    var refused := Ask(limIP, limUser, ipKey, userKey, now);
    if refused.Some? {
      return Blocked(refused.value);
    }
    RecordOutcome(limIP, limUser, ipKey, userKey, right, later);
    return if right then Accepted else Rejected;
  }

  /** handle2FAVerify, for an enrolled user. */
  method CodeLogin(limTOTP: Limiter, key: string, right: bool, now: int, later: int) returns (reply: Reply)
    requires limTOTP.Valid()
    modifies limTOTP, limTOTP.cells
    ensures limTOTP.Valid()
    ensures reply.Blocked? <==> LockedAt(old(limTOTP.table), key, now)
    ensures reply.Blocked? ==> reply.until == old(limTOTP.table)[key].lockedUntil
    ensures !reply.Blocked? ==> (reply.Accepted? <==> right)
    ensures limTOTP.table == AfterLogin(limTOTP.params, old(limTOTP.table), reply, key, now, later)
  {
    var ok, until := limTOTP.Allowed(key, now);
    if !ok {
      return Blocked(until);
    }
    if !right {
      var _ := limTOTP.Fail(key, later);
      return Rejected;
    }
    limTOTP.Reset(key);
    return Accepted;
  }

  /** The moves that a login makes on one limiter, where the key was `locked` or not when it asked. A
      request that this limiter lets in may still be blocked by the other one. */
  function Parts(reply: Reply, locked: bool, key: string, now: int, later: int): seq<Timestamped> {
    match reply
    case Blocked(_) => if locked then [At(Enter, now)] else [At(Enter, now), At(Leave, now)]
    case Rejected => [At(Enter, now), At(Wrong, later)]
    case Accepted => [At(Enter, now), At(Leave, later), At(Other(Reset(key)), later)]
  }

  /** A login is made of moves, one failure per rejection, and it ends with nothing more under way; the
      bound on failures covers every series of them, overlapping or not, up to the first success. */
  lemma LoginIsMoves(p: Params, f: Flow, reply: Reply, key: string, now: int, later: int)
    requires now <= later && (LockedAt(f.e, key, now) ==> reply.Blocked?)
    ensures var ms := Parts(reply, LockedAt(f.e, key, now), key, now, later);
            && Flowed(p, f, key, ms) == Flow(AfterLogin(p, f.e, reply, key, now, later), f.underWay)
            && Wrongs(ms) == (if reply.Rejected? then 1 else 0)
            && (Flows(p, f, ms, key, f.underWay + 1, now) <==> !reply.Accepted?)
  {
    var ms := Parts(reply, LockedAt(f.e, key, now), key, now, later);
    var f1 := Moved(p, f, key, ms[0]);
    if |ms| == 1 {
      assert ms[1..] == [];
    } else {
      var rest, f2 := ms[1..], Moved(p, f1, key, ms[1]);
      assert rest[0] == ms[1] && rest[1..] == ms[2..];
      if |ms| == 2 {
        assert rest[1..] == [];
      } else {
        var last := rest[1..];
        assert last[0] == ms[2] && last[1..] == [];
        assert Flowed(p, f2, key, last) == Moved(p, f2, key, ms[2]) && Wrongs(last) == 0;
        assert !CanMove(f2, key, f.underWay + 1, ms[2]);
      }
      assert Flowed(p, f1, key, rest) == Flowed(p, f2, key, rest[1..]);
      assert Wrongs(rest) == (if ms[1].move.Wrong? then 1 else 0) + Wrongs(rest[1..]);
      assert Flows(p, f1, rest, key, f.underWay + 1, now)
             <==> now <= ms[1].now && Flows(p, f2, rest[1..], key, f.underWay + 1, ms[1].now);
    }
  }
}

// Session rows as the session service reads and overwrites them.
module SessionService {
  import opened Wrappers
  import opened Sessions

  // One rotation nothing interleaves with: read, then the write it decided on.
  function Rotate(sessions: seq<Session>, token: nat, device: nat, now: int, userActive: bool, next: nat)
    : (seq<Session>, Result<nat>)
  {
    match Plan(sessions, token, device, now, userActive, next)
    case None => (sessions, Err(Unauthorized))
    case Some(Expiring(sid)) => (sessions[sid := MarkExpired(sessions[sid])], Err(Unauthorized))
    case Some(Revoking(sid, _)) => (sessions[sid := RevokeForReplay(sessions[sid])], Err(RefreshReplay))
    case Some(Swapping(sid, _, _)) =>
      if Swappable(sessions[sid], token) then (sessions[sid := Swapped(sessions[sid], token, next, now)], Ok(sid))
      else (sessions[sid := RevokeForReplay(sessions[sid])], Err(RefreshReplay))
  }

  // The same rotation in the step machine.
  function Alone(pid: nat, token: nat, device: nat, now: int, userActive: bool): seq<Step> {
    [DoRead(pid, token, device, now, userActive), DoSwap(pid, now), DoMarkExpired(pid), DoRevokeForReplay(pid)]
  }

  lemma RunFour(s: State, r: seq<Step>)
    requires |r| == 4
    ensures Run(s, r) == Next(Next(Next(Next(s, r[0]), r[1]), r[2]), r[3])
  {
    assert r[..3][..2] == r[..2] && r[..2][..1] == r[..1] && r[..1][..0] == [];
    assert Run(s, r[..1]) == Next(s, r[0]);
    assert Run(s, r[..2]) == Next(Run(s, r[..1]), r[1]);
    assert Run(s, r[..3]) == Next(Run(s, r[..2]), r[2]);
  }

  lemma ReadPlans(s: State, pid: nat, token: nat, device: nat, now: int, userActive: bool)
    requires pid !in s.rotations
    ensures var s1 := Next(s, DoRead(pid, token, device, now, userActive));
            var plan := Plan(s.sessions, token, device, now, userActive, s.minted);
            && s1.sessions == s.sessions && s1.rotated == s.rotated
            && (plan.None? <==> pid !in s1.rotations)
            && (plan.Some? ==> s1.rotations[pid] == plan.value && plan.value.sid < |s.sessions|)
  {
  }

  // The write that the plan asks for, and no other.
  lemma PlanRuns(s: State, pid: nat, now: int)
    requires pid in s.rotations ==> s.rotations[pid].sid < |s.sessions|
    ensures var t := Next(Next(Next(s, DoSwap(pid, now)), DoMarkExpired(pid)), DoRevokeForReplay(pid));
            if pid !in s.rotations then t.sessions == s.sessions && t.rotated == s.rotated
            else
              match s.rotations[pid]
              case Expiring(sid) =>
                t.sessions == s.sessions[sid := MarkExpired(s.sessions[sid])] && t.rotated == s.rotated
              case Revoking(sid, _) =>
                t.sessions == s.sessions[sid := RevokeForReplay(s.sessions[sid])] && t.rotated == s.rotated
              case Swapping(sid, token, next) =>
                if Swappable(s.sessions[sid], token)
                then t.sessions == s.sessions[sid := Swapped(s.sessions[sid], token, next, now)]
                     && t.rotated == s.rotated + [(sid, token)]
                else t.sessions == s.sessions[sid := RevokeForReplay(s.sessions[sid])] && t.rotated == s.rotated
  {
  }

  lemma SwapPlansItself(sessions: seq<Session>, token: nat, device: nat, now: int, userActive: bool, next: nat)
    requires var plan := Plan(sessions, token, device, now, userActive, next); plan.Some? && plan.value.Swapping?
    ensures var plan := Plan(sessions, token, device, now, userActive, next).value;
            plan.incoming == token && plan.next == next
  {
  }

  lemma RotateIsRun(s: State, pid: nat, token: nat, device: nat, now: int, userActive: bool)
    requires pid !in s.rotations
    ensures Run(s, Alone(pid, token, device, now, userActive)).sessions
            == Rotate(s.sessions, token, device, now, userActive, s.minted).0
    ensures Run(s, Alone(pid, token, device, now, userActive)).rotated
            == s.rotated + match Rotate(s.sessions, token, device, now, userActive, s.minted).1
                           case Ok(sid) => [(sid, token)]
                           case Err(_) => []
  {
    RunFour(s, Alone(pid, token, device, now, userActive));
    ReadPlans(s, pid, token, device, now, userActive);
    PlanRuns(Next(s, DoRead(pid, token, device, now, userActive)), pid, now);
    var plan := Plan(s.sessions, token, device, now, userActive, s.minted);
    if plan.Some? && plan.value.Swapping? { SwapPlansItself(s.sessions, token, device, now, userActive, s.minted); }
  }

  lemma {:induction false} FoundEarly(sessions: seq<Session>, i: nat, token: nat)
    requires i < |sessions| && FindByToken(sessions[..i], token) == None && Carries(sessions[i], token)
    ensures FindByToken(sessions, token) == Some(i)
  {
    var n := |sessions| - 1;
    if i < n {
      assert sessions[..n][..i] == sessions[..i];
      FoundEarly(sessions[..n], i, token);
    }
  }

  class SessionRows {
    var sessions: seq<Session>

    constructor ()
      ensures sessions == []
    {
      sessions := [];
    }

    method CreateSession(user: nat, device: nat, token: nat, now: int) returns (sid: nat)
      modifies this
      ensures sid == old(|sessions|) && sessions == old(sessions) + [NewSession(user, device, token, now)]
    {
      sid := |sessions|;
      sessions := sessions + [Session(user, device, Some(token), None, 0, Active, now + REFRESH_TTL_MS, false)];
    }

    method FindFirst(token: nat) returns (sid: Option<nat>)
      ensures sid == FindByToken(sessions, token)
    {
      sid := None;
      for i := 0 to |sessions|
        invariant FindByToken(sessions[..i], token) == None
      {
        assert sessions[..i + 1][..i] == sessions[..i];
        if sessions[i].refreshToken == Some(token) || sessions[i].previousToken == Some(token) {
          FoundEarly(sessions, i, token);
          return Some(i);
        }
      }
      assert sessions[..|sessions|] == sessions;
    }

    method CompareAndSwap(sid: nat, incoming: nat, next: nat, now: int) returns (count: nat)
      requires sid < |sessions|
      modifies this
      ensures count == 1 <==> Swappable(old(sessions)[sid], incoming)
      ensures sessions == if count == 1
                          then old(sessions)[sid := Swapped(old(sessions)[sid], incoming, next, now)]
                          else old(sessions)
    {
      var s := sessions[sid];
      if s.refreshToken != Some(incoming) || s.revoked || s.status != Active {
        return 0;
      }
      sessions := sessions[sid := s.(previousToken := Some(incoming), refreshToken := Some(next),
                                     version := s.version + 1, expiresAt := now + REFRESH_TTL_MS)];
      return 1;
    }

    method RevokeReplayed(sid: nat)
      requires sid < |sessions|
      modifies this
      ensures sessions == old(sessions)[sid := RevokeForReplay(old(sessions)[sid])]
    {
      var s := sessions[sid];
      if s.status != Revoked {
        sessions := sessions[sid := s.(status := Revoked, revoked := true, refreshToken := None,
                                       previousToken := None)];
      }
    }

    method Expire(sid: nat) returns (logged: bool)
      modifies this
      ensures logged <==> sid < |old(sessions)| && old(sessions)[sid].status == Active
      ensures sessions == if logged then old(sessions)[sid := MarkExpired(old(sessions)[sid])] else old(sessions)
    {
      if sid >= |sessions| || sessions[sid].status != Active {
        return false;
      }
      sessions := sessions[sid := sessions[sid].(status := Expired, revoked := true, refreshToken := None,
                                                 previousToken := None)];
      return true;
    }

    method RevokeSession(requester: nat, sid: nat, allowAny: bool) returns (result: Result<nat>)
      modifies this
      ensures result.Ok? <==> sid < |old(sessions)| && (allowAny || old(sessions)[sid].userId == requester)
      ensures sessions == if result.Ok? && old(sessions)[sid].status != Revoked
                          then old(sessions)[sid := Cleared(old(sessions)[sid], Revoked)]
                          else old(sessions)
    {
      if sid >= |sessions| {
        return Err(Unauthorized);
      }
      var s := sessions[sid];
      if s.userId != requester && !allowAny {
        return Err(Forbidden);
      }
      if s.status != Revoked {
        sessions := sessions[sid := s.(status := Revoked, revoked := true, refreshToken := None,
                                       previousToken := None)];
      }
      return Ok(sid);
    }

    method RotateRefreshToken(token: nat, device: nat, now: int, userActive: bool, next: nat)
      returns (result: Result<nat>)
      modifies this
      ensures (sessions, result) == Rotate(old(sessions), token, device, now, userActive, next)
    {
      var found := FindFirst(token);
      if found.None? {
        return Err(Unauthorized);
      }
      var sid := found.value;
      var s := sessions[sid];
      if s.deviceId != device {
        RevokeReplayed(sid);
        return Err(RefreshReplay);
      }
      if s.status == Revoked {
        return Err(Unauthorized);
      }
      if s.expiresAt < now {
        var _ := Expire(sid);
        assert sessions == old(sessions)[sid := MarkExpired(s)];
        return Err(Unauthorized);
      }
      if s.status != Active || !userActive {
        return Err(Unauthorized);
      }
      if s.previousToken == Some(token) {
        RevokeReplayed(sid);
        return Err(RefreshReplay);
      }
      if s.refreshToken != Some(token) {
        return Err(Unauthorized);
      }
      var count := CompareAndSwap(sid, token, next, now);
      if count != 1 {
        RevokeReplayed(sid);
        return Err(RefreshReplay);
      }
      return Ok(sid);
    }
  }

  // Alone, the compare-and-set never loses: a replay error then always comes
  // from the read, and never from a token presented for the first time on its
  // own device.
  lemma AloneNeverLoses(s: State, token: nat, device: nat, now: int, userActive: bool, next: nat)
    requires Inv(s)
    ensures var r := Rotate(s.sessions, token, device, now, userActive, next).1;
            && (r.Ok? <==> exists sid :: 0 <= sid < |s.sessions| && s.sessions[sid].refreshToken == Some(token)
                             && s.sessions[sid].previousToken != Some(token) && s.sessions[sid].deviceId == device
                             && s.sessions[sid].expiresAt >= now && userActive)
            && (r == Err(RefreshReplay) ==> forall sid :: 0 <= sid < |s.sessions| ==>
                  s.sessions[sid].refreshToken == Some(token) && s.sessions[sid].previousToken != Some(token) ==>
                  s.sessions[sid].deviceId != device)
  {
    var found := FindByToken(s.sessions, token);
    if found.Some? {
      assert Carries(s.sessions[found.value], token);
      forall sid | 0 <= sid < |s.sessions| && s.sessions[sid].refreshToken == Some(token)
        ensures sid == found.value
      {
        assert Carries(s.sessions[sid], token);
      }
    }
  }
}

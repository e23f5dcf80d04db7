// What each session request answers and leaves in the row.
module SessionOutcomes {
  import opened Wrappers
  import opened Sessions
  import opened SessionService

  // A session that is over: no token gets in again.
  function Ended(s: Session, status: SessionStatus): (over: Session)
    ensures over.status == status && over.revoked && over.refreshToken.None? && over.previousToken.None?
    ensures over.userId == s.userId && over.deviceId == s.deviceId && over.version == s.version
  {
    Session(s.userId, s.deviceId, None, None, s.version, status, s.expiresAt, true)
  }

  // A new session lasts thirty days and has one token, handed out for the first time.
  lemma CreateWrites(s: State, user: nat, device: nat, now: int)
    ensures var s' := Next(s, DoCreate(user, device, now));
            && s'.sessions == s.sessions + [Session(user, device, Some(s.minted), None, 0, Active,
                                                    now + 30 * 24 * 60 * 60 * 1000, false)]
            && s'.minted == s.minted + 1 && s'.rotations == s.rotations && s'.rotated == s.rotated
  {
  }

  // The row a presented token leads to and what is done about it.
  ghost predicate RotationEnds(
    x: Session, x': Session, sid: nat, out: Result<nat>,
    token: nat, device: nat, now: int, userActive: bool, next: nat)
  {
    if x.deviceId != device then x' == Ended(x, Revoked) && out == Err(RefreshReplay)
    else if x.expiresAt < now then x' == Ended(x, Expired) && out == Err(Unauthorized)
    else if !userActive then x' == x && out == Err(Unauthorized)
    else if x.previousToken == Some(token) then x' == Ended(x, Revoked) && out == Err(RefreshReplay)
    else
      && out == Ok(sid)
      && x' == x.(refreshToken := Some(next), previousToken := Some(token), version := x.version + 1,
                  expiresAt := now + 30 * 24 * 60 * 60 * 1000)
  }

  lemma CarrierIsFound(s: State, token: nat, sid: nat)
    requires Inv(s) && sid < |s.sessions| && Carries(s.sessions[sid], token)
    ensures FindByToken(s.sessions, token) == Some(sid) && s.sessions[sid].status == Active && !s.sessions[sid].revoked
  {
    var found := FindByToken(s.sessions, token);
    assert Carries(s.sessions[found.value], token);
  }

  lemma RotateEnds(s: State, token: nat, device: nat, now: int, userActive: bool, next: nat, sid: nat)
    requires Inv(s) && sid < |s.sessions| && Carries(s.sessions[sid], token)
    ensures var (rows, out) := Rotate(s.sessions, token, device, now, userActive, next);
            && |rows| == |s.sessions| && rows == s.sessions[sid := rows[sid]]
            && RotationEnds(s.sessions[sid], rows[sid], sid, out, token, device, now, userActive, next)
  {
    CarrierIsFound(s, token, sid);
  }

  lemma AloneEnds(s: State, pid: nat, token: nat, device: nat, now: int, userActive: bool, sid: nat)
    requires Inv(s) && pid !in s.rotations && sid < |s.sessions| && Carries(s.sessions[sid], token)
    ensures var t := Run(s, Alone(pid, token, device, now, userActive));
            var out := Rotate(s.sessions, token, device, now, userActive, s.minted).1;
            && |t.sessions| == |s.sessions| && t.sessions == s.sessions[sid := t.sessions[sid]]
            && RotationEnds(s.sessions[sid], t.sessions[sid], sid, out, token, device, now, userActive, s.minted)
  {
    RotateIsRun(s, pid, token, device, now, userActive);
    RotateEnds(s, token, device, now, userActive, s.minted, sid);
  }

  lemma StrangeToken(s: State, pid: nat, token: nat, device: nat, now: int, userActive: bool)
    requires pid !in s.rotations && forall i :: 0 <= i < |s.sessions| ==> !Carries(s.sessions[i], token)
    ensures Run(s, Alone(pid, token, device, now, userActive)).sessions == s.sessions
    ensures Rotate(s.sessions, token, device, now, userActive, s.minted).1 == Err(Unauthorized)
  {
    RotateIsRun(s, pid, token, device, now, userActive);
  }

  // A token presented alone, in any reachable state. One that no session carries is
  // refused and changes nothing. Another device, or the token before the current
  // one, ends the session; so does a lapsed one; a disabled user is refused; and
  // otherwise the token is exchanged for the next one and the session runs for
  // thirty days from now.
  lemma PresentedTokenEnds(past: seq<Step>, pid: nat, token: nat, device: nat, now: int, userActive: bool, sid: nat)
    requires pid !in Run(NO_SESSIONS, past).rotations
    ensures var s := Run(NO_SESSIONS, past); var t := Run(s, Alone(pid, token, device, now, userActive));
            var out := Rotate(s.sessions, token, device, now, userActive, s.minted).1;
            && ((forall i :: 0 <= i < |s.sessions| ==>
                   s.sessions[i].refreshToken != Some(token) && s.sessions[i].previousToken != Some(token)) ==>
                  t.sessions == s.sessions && out == Err(Unauthorized))
            && (sid < |s.sessions|
                && (s.sessions[sid].refreshToken == Some(token) || s.sessions[sid].previousToken == Some(token)) ==>
                  && |t.sessions| == |s.sessions| && t.sessions == s.sessions[sid := t.sessions[sid]]
                  && RotationEnds(s.sessions[sid], t.sessions[sid], sid, out, token, device, now, userActive, s.minted))
  {
    var s := Run(NO_SESSIONS, past);
    RunKeepsInv(NO_SESSIONS, past);
    if forall i :: 0 <= i < |s.sessions| ==> !Carries(s.sessions[i], token) {
      StrangeToken(s, pid, token, device, now, userActive);
    } else if sid < |s.sessions| && Carries(s.sessions[sid], token) {
      AloneEnds(s, pid, token, device, now, userActive, sid);
    }
  }

  // Between read and write others may have been there: the exchange takes place
  // exactly when the token is still the current one of an ACTIVE session, and one
  // that does not goes on to revoke.
  lemma SwapWrites(s: State, pid: nat, now: int)
    requires pid in s.rotations && s.rotations[pid].Swapping? && s.rotations[pid].sid < |s.sessions|
    ensures var s' := Next(s, DoSwap(pid, now)); var r := s.rotations[pid]; var x := s.sessions[r.sid];
            if x.refreshToken == Some(r.incoming) && x.status == Active && !x.revoked
            then
              && s'.sessions == s.sessions[r.sid :=
                   x.(refreshToken := Some(r.next), previousToken := Some(r.incoming), version := x.version + 1,
                      expiresAt := now + 30 * 24 * 60 * 60 * 1000)]
              && s'.rotated == s.rotated + [(r.sid, r.incoming)] && s'.rotations == s.rotations - {pid}
            else
              && s'.sessions == s.sessions && s'.rotated == s.rotated
              && s'.rotations == s.rotations[pid := Revoking(r.sid, true)]
  {
  }

  // The two writes that end a session leave one alone that is over already, and
  // expiry only ends an ACTIVE one.
  lemma EndingWrites(s: State, pid: nat)
    requires Inv(s) && pid in s.rotations
    ensures var r := s.rotations[pid]; r.sid < |s.sessions|
    ensures var r := s.rotations[pid]; var x := s.sessions[r.sid];
            && (r.Revoking? ==>
                  Next(s, DoRevokeForReplay(pid)).sessions
                  == s.sessions[r.sid := if x.status == Revoked then x else Ended(x, Revoked)])
            && (r.Expiring? ==>
                  Next(s, DoMarkExpired(pid)).sessions
                  == s.sessions[r.sid := if x.status == Active then Ended(x, Expired) else x])
  {
    assert RotationOk(s, s.rotations[pid]);
  }

  lemma RevokeSessionWrites(s: State, sid: nat)
    requires sid < |s.sessions|
    ensures Next(s, DoRevokeSession(sid)) == s.(sessions := s.sessions[sid := Ended(s.sessions[sid], Revoked)])
    ensures Next(s, DoExpireSession(sid)).sessions
            == s.sessions[sid := if s.sessions[sid].status == Active then Ended(s.sessions[sid], Expired)
                                 else s.sessions[sid]]
  {
  }
}

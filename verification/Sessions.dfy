// Refresh-token rotation: a read, a compare-and-set on the token just read, and a
// revocation when either says replay.
module Sessions {
  import opened Totals
  import opened Wrappers

  datatype SessionStatus = Active | Revoked | Expired

  // Token hashes are injective, so a token stands for its hash.
  datatype Session = Session(
    userId: nat,
    deviceId: nat,
    refreshToken: Option<nat>,
    previousToken: Option<nat>,
    version: nat,
    status: SessionStatus,
    expiresAt: int,
    revoked: bool)

  const REFRESH_TTL_MS := 2592000 * 1000

  datatype Rotation =
    | Swapping(sid: nat, incoming: nat, next: nat)
    | Revoking(sid: nat, lost: bool)
    | Expiring(sid: nat)

  // minted: tokens below this number have been handed out. rotated: incoming
  // tokens of the rotations that succeeded, with the session, in order.
  datatype State = State(
    sessions: seq<Session>,
    minted: nat,
    rotations: map<nat, Rotation>,
    rotated: seq<(nat, nat)>)

  /******* Queries and row updates *******/

  predicate Carries(s: Session, token: nat) {
    s.refreshToken == Some(token) || s.previousToken == Some(token)
  }

  function FindByToken(sessions: seq<Session>, token: nat): (sid: Option<nat>)
    ensures sid.Some? ==> sid.value < |sessions| && Carries(sessions[sid.value], token)
    ensures sid.None? ==> forall i :: 0 <= i < |sessions| ==> !Carries(sessions[i], token)
  {
    if |sessions| == 0 then None
    else
      var n := |sessions| - 1;
      var front := FindByToken(sessions[..n], token);
      if front.Some? then front else if Carries(sessions[n], token) then Some(n) else None
  }

  function Cleared(s: Session, status: SessionStatus): Session {
    s.(status := status, revoked := true, refreshToken := None, previousToken := None)
  }

  function NewSession(user: nat, device: nat, token: nat, now: int): Session {
    Session(user, device, Some(token), None, 0, Active, now + REFRESH_TTL_MS, false)
  }

  // The where clause of the compare-and-set.
  predicate Swappable(s: Session, incoming: nat) {
    s.refreshToken == Some(incoming) && !s.revoked && s.status == Active
  }

  function Swapped(s: Session, incoming: nat, next: nat, now: int): Session {
    s.(previousToken := Some(incoming), refreshToken := Some(next), version := s.version + 1,
       expiresAt := now + REFRESH_TTL_MS)
  }

  function RevokeForReplay(s: Session): Session { if s.status == Revoked then s else Cleared(s, Revoked) }

  function MarkExpired(s: Session): Session { if s.status == Active then Cleared(s, Expired) else s }

  // What rotateRefreshToken decides from its first read.
  datatype Verdict = Refuse | MarkIt | Revoke | Swap

  function Judge(s: Session, token: nat, device: nat, now: int, userActive: bool): Verdict {
    if s.deviceId != device then Revoke
    else if s.status == Revoked then Refuse
    else if s.expiresAt < now then MarkIt
    else if s.status != Active || !userActive then Refuse
    else if s.previousToken == Some(token) then Revoke
    else if s.refreshToken != Some(token) then Refuse
    else Swap
  }

  // What the first read of rotateRefreshToken leaves to do; None is a refusal.
  function Plan(sessions: seq<Session>, token: nat, device: nat, now: int, userActive: bool, next: nat)
    : Option<Rotation>
  {
    var found := FindByToken(sessions, token);
    if found.None? then None
    else
      match Judge(sessions[found.value], token, device, now, userActive)
      case Refuse => None
      case MarkIt => Some(Expiring(found.value))
      case Revoke => Some(Revoking(found.value, false))
      case Swap => Some(Swapping(found.value, token, next))
  }

  /******* Steps *******/

  datatype Step =
    | DoCreate(user: nat, device: nat, now: int)
    | DoRead(pid: nat, token: nat, device: nat, now: int, userActive: bool)
    | DoSwap(pid: nat, now: int)
    | DoRevokeForReplay(pid: nat)
    | DoMarkExpired(pid: nat)
    | DoRevokeSession(sid: nat)
    | DoExpireSession(sid: nat)
    | DoAbandon(pid: nat)

  function Set(s: State, sid: nat, row: Session): State
    requires sid < |s.sessions|
  {
    s.(sessions := s.sessions[sid := row])
  }

  function Next(s: State, step: Step): State {
    match step
    case DoCreate(user, device, now) =>
      s.(sessions := s.sessions + [NewSession(user, device, s.minted, now)], minted := s.minted + 1)
    case DoRead(pid, token, device, now, userActive) =>
      if pid in s.rotations then s
      else
        // the next token is drawn before the rotation starts
        var s1 := s.(minted := s.minted + 1);
        var plan := Plan(s.sessions, token, device, now, userActive, s.minted);
        if plan.None? then s1 else s1.(rotations := s.rotations[pid := plan.value])
    case DoSwap(pid, now) =>
      if pid !in s.rotations || !s.rotations[pid].Swapping? || s.rotations[pid].sid >= |s.sessions| then s
      else
        var Swapping(sid, incoming, next) := s.rotations[pid];
        if Swappable(s.sessions[sid], incoming) then
          Set(s, sid, Swapped(s.sessions[sid], incoming, next, now))
            .(rotations := s.rotations - {pid}, rotated := s.rotated + [(sid, incoming)])
        else s.(rotations := s.rotations[pid := Revoking(sid, true)])
    case DoRevokeForReplay(pid) =>
      if pid !in s.rotations || !s.rotations[pid].Revoking? || s.rotations[pid].sid >= |s.sessions| then s
      else
        var sid := s.rotations[pid].sid;
        Set(s, sid, RevokeForReplay(s.sessions[sid])).(rotations := s.rotations - {pid})
    case DoMarkExpired(pid) =>
      if pid !in s.rotations || !s.rotations[pid].Expiring? || s.rotations[pid].sid >= |s.sessions| then s
      else
        var sid := s.rotations[pid].sid;
        Set(s, sid, MarkExpired(s.sessions[sid])).(rotations := s.rotations - {pid})
    case DoRevokeSession(sid) =>
      if sid >= |s.sessions| then s else Set(s, sid, Cleared(s.sessions[sid], Revoked))
    case DoExpireSession(sid) =>
      if sid >= |s.sessions| then s else Set(s, sid, MarkExpired(s.sessions[sid]))
    case DoAbandon(pid) => s.(rotations := s.rotations - {pid})
  }

  function Run(s: State, steps: seq<Step>): State {
    if |steps| == 0 then s else Next(Run(s, steps[..|steps| - 1]), steps[|steps| - 1])
  }

  const NO_SESSIONS := State([], 0, map[], [])

  /******* Invariant *******/

  // Every token a session carries was minted; a token is carried by one session
  // at most; a token that was rotated is current nowhere.
  ghost predicate SessionsOk(s: State) {
    && (forall i, t: nat :: 0 <= i < |s.sessions| && Carries(s.sessions[i], t) ==> t < s.minted)
    && (forall i, j, t: nat :: 0 <= i < j < |s.sessions| && Carries(s.sessions[i], t) ==> !Carries(s.sessions[j], t))
    && (forall i :: 0 <= i < |s.sessions| && s.sessions[i].status != Active ==>
          s.sessions[i].refreshToken == None && s.sessions[i].previousToken == None)
    && (forall i :: 0 <= i < |s.sessions| ==> (s.sessions[i].revoked <==> s.sessions[i].status != Active))
  }

  ghost predicate RotatedOk(s: State) {
    && (forall i :: 0 <= i < |s.rotated| ==> s.rotated[i].1 < s.minted)
    && (forall i, j :: 0 <= i < |s.rotated| && 0 <= j < |s.sessions| ==>
          s.sessions[j].refreshToken != Some(s.rotated[i].1))
    && (forall i, j :: 0 <= i < j < |s.rotated| ==> s.rotated[i].1 != s.rotated[j].1)
  }

  // A swap in flight holds a next token that nothing else carries.
  ghost predicate RotationOk(s: State, r: Rotation) {
    && r.sid < |s.sessions|
    && (r.Swapping? ==>
          && r.next < s.minted && r.incoming != r.next
          && (forall i :: 0 <= i < |s.sessions| ==> !Carries(s.sessions[i], r.next))
          && (forall i :: 0 <= i < |s.rotated| ==> s.rotated[i].1 != r.next))
  }

  ghost predicate RotationsOk(s: State) {
    && (forall p :: p in s.rotations ==> RotationOk(s, s.rotations[p]))
    && (forall p, q :: p in s.rotations && q in s.rotations && p != q
                       && s.rotations[p].Swapping? && s.rotations[q].Swapping? ==>
          s.rotations[p].next != s.rotations[q].next)
  }

  ghost predicate Inv(s: State) { SessionsOk(s) && RotatedOk(s) && RotationsOk(s) }

  /******* Preservation *******/

  // A step that mints one token, adds at most one session with it, and clears
  // rows, but swaps nothing.
  ghost predicate Tame(s: State, s': State) {
    && s.minted <= s'.minted && |s.sessions| <= |s'.sessions| && s'.rotated == s.rotated
    && (forall i :: 0 <= i < |s.sessions| ==>
          s'.sessions[i] == s.sessions[i]
          || (s'.sessions[i] == Cleared(s.sessions[i], s'.sessions[i].status) && s'.sessions[i].status != Active))
    && (forall i :: |s.sessions| <= i < |s'.sessions| ==>
          && s'.sessions[i].refreshToken == Some(s.minted) && s'.sessions[i].previousToken == None
          && s'.sessions[i].status == Active && !s'.sessions[i].revoked && s.minted < s'.minted)
    && |s'.sessions| <= |s.sessions| + 1
  }

  lemma TameKeepsRows(s: State, s': State)
    requires Inv(s) && Tame(s, s')
    ensures SessionsOk(s') && RotatedOk(s')
  {
    forall i, t: nat | 0 <= i < |s'.sessions| && Carries(s'.sessions[i], t) ensures t < s'.minted {
      if i < |s.sessions| { assert Carries(s.sessions[i], t); }
    }
    forall i, j, t: nat | 0 <= i < j < |s'.sessions| && Carries(s'.sessions[i], t)
      ensures !Carries(s'.sessions[j], t)
    {
      assert Carries(s.sessions[i], t);
      if j < |s.sessions| { assert !Carries(s.sessions[j], t); }
    }
  }

  lemma TameKeepsRotation(s: State, s': State, r: Rotation)
    requires Tame(s, s') && RotationOk(s, r)
    ensures RotationOk(s', r)
  {
    if r.Swapping? {
      forall i | 0 <= i < |s'.sessions| ensures !Carries(s'.sessions[i], r.next) {
        if i < |s.sessions| { assert !Carries(s.sessions[i], r.next); }
      }
    }
  }

  lemma TameKeepsInv(s: State, s': State)
    requires Inv(s) && Tame(s, s')
    requires forall p :: p in s'.rotations ==>
               (p in s.rotations && s'.rotations[p] == s.rotations[p])
               || (RotationOk(s', s'.rotations[p])
                   && (s'.rotations[p].Swapping? ==> s'.rotations[p].next >= s.minted))
    requires forall p, q :: p in s'.rotations && q in s'.rotations && p != q ==>
               (p in s.rotations && s'.rotations[p] == s.rotations[p])
               || (q in s.rotations && s'.rotations[q] == s.rotations[q])
    ensures Inv(s')
  {
    TameKeepsRows(s, s');
    forall p | p in s'.rotations ensures RotationOk(s', s'.rotations[p]) {
      if p in s.rotations && s'.rotations[p] == s.rotations[p] { TameKeepsRotation(s, s', s.rotations[p]); }
    }
    forall p, q | p in s'.rotations && q in s'.rotations && p != q
                  && s'.rotations[p].Swapping? && s'.rotations[q].Swapping?
      ensures s'.rotations[p].next != s'.rotations[q].next
    {
      if p in s.rotations && s'.rotations[p] == s.rotations[p] { assert RotationOk(s, s.rotations[p]); }
      if q in s.rotations && s'.rotations[q] == s.rotations[q] { assert RotationOk(s, s.rotations[q]); }
    }
  }

  lemma ReadKeepsInv(s: State, pid: nat, token: nat, device: nat, now: int, userActive: bool)
    requires Inv(s)
    ensures Inv(Next(s, DoRead(pid, token, device, now, userActive)))
  {
    var s' := Next(s, DoRead(pid, token, device, now, userActive));
    var found := FindByToken(s.sessions, token);
    if pid !in s.rotations && found.Some? {
      forall i | 0 <= i < |s.sessions| ensures !Carries(s.sessions[i], s.minted) { }
      assert token < s.minted;
      if pid in s'.rotations { assert RotationOk(s', s'.rotations[pid]); }
    }
    TameKeepsInv(s, s');
  }

  lemma SwapKeepsRows(s: State, pid: nat, now: int)
    requires Inv(s) && pid in s.rotations && s.rotations[pid].Swapping?
    requires Swappable(s.sessions[s.rotations[pid].sid], s.rotations[pid].incoming)
    ensures var s' := Next(s, DoSwap(pid, now)); SessionsOk(s') && RotatedOk(s')
  {
    var s' := Next(s, DoSwap(pid, now));
    var Swapping(sid, incoming, next) := s.rotations[pid];
    assert RotationOk(s, s.rotations[pid]);
    assert Carries(s.sessions[sid], incoming);
    forall i, t: nat | 0 <= i < |s'.sessions| && Carries(s'.sessions[i], t) ensures t < s'.minted {
      if i != sid { assert Carries(s.sessions[i], t); }
    }
    forall i, j, t: nat | 0 <= i < j < |s'.sessions| && Carries(s'.sessions[i], t)
      ensures !Carries(s'.sessions[j], t)
    {
      assert !Carries(s.sessions[i], next) && !Carries(s.sessions[j], next);
      assert t == next || Carries(s.sessions[i], t);
    }
    forall i, j | 0 <= i < |s'.rotated| && 0 <= j < |s'.sessions|
      ensures s'.sessions[j].refreshToken != Some(s'.rotated[i].1)
    {
      if i == |s.rotated| && j != sid { assert s.sessions[sid].refreshToken == Some(incoming); }
    }
    forall i | 0 <= i < |s.rotated| ensures s.rotated[i].1 != incoming {
      assert s.sessions[sid].refreshToken != Some(s.rotated[i].1);
    }
  }

  lemma SwapKeepsInv(s: State, pid: nat, now: int)
    requires Inv(s) && pid in s.rotations && s.rotations[pid].Swapping?
    requires Swappable(s.sessions[s.rotations[pid].sid], s.rotations[pid].incoming)
    ensures Inv(Next(s, DoSwap(pid, now)))
  {
    SwapKeepsRows(s, pid, now);
    var s' := Next(s, DoSwap(pid, now));
    var Swapping(sid, incoming, next) := s.rotations[pid];
    assert RotationOk(s, s.rotations[pid]);
    forall p | p in s'.rotations ensures RotationOk(s', s'.rotations[p]) {
      var r := s.rotations[p];
      assert RotationOk(s, r);
      if r.Swapping? {
        assert r.next != next;
        assert !Carries(s.sessions[sid], r.next) && Carries(s.sessions[sid], incoming);
        forall i | 0 <= i < |s'.sessions| ensures !Carries(s'.sessions[i], r.next) {
          assert !Carries(s.sessions[i], r.next);
        }
      }
    }
  }

  lemma OtherStepsTame(s: State, step: Step)
    requires !step.DoRead? && !step.DoSwap?
    ensures Tame(s, Next(s, step))
    ensures forall p :: p in Next(s, step).rotations ==>
              p in s.rotations && Next(s, step).rotations[p] == s.rotations[p]
  {
  }

  lemma StepKeepsInv(s: State, step: Step)
    requires Inv(s)
    ensures Inv(Next(s, step))
  {
    match step
    case DoRead(pid, token, device, now, userActive) => ReadKeepsInv(s, pid, token, device, now, userActive);
    case DoSwap(pid, now) =>
      if pid in s.rotations && s.rotations[pid].Swapping? {
        assert RotationOk(s, s.rotations[pid]);
        if Swappable(s.sessions[s.rotations[pid].sid], s.rotations[pid].incoming) {
          SwapKeepsInv(s, pid, now);
        } else {
          TameKeepsInv(s, Next(s, step));
        }
      }
    case _ =>
      OtherStepsTame(s, step);
      TameKeepsInv(s, Next(s, step));
  }

  lemma {:induction false} RunKeepsInv(s: State, steps: seq<Step>)
    requires Inv(s)
    ensures Inv(Run(s, steps))
  {
    if |steps| != 0 {
      RunKeepsInv(s, steps[..|steps| - 1]);
      StepKeepsInv(Run(s, steps[..|steps| - 1]), steps[|steps| - 1]);
    }
  }

  /******* Results *******/

  // However many rotations run at once, a token is rotated successfully at most
  // once in the whole run, and a session that is not ACTIVE carries no token.
  lemma TokensAreSingleUse(steps: seq<Step>)
    ensures var s := Run(NO_SESSIONS, steps);
            && (forall i, j :: 0 <= i < j < |s.rotated| ==> s.rotated[i].1 != s.rotated[j].1)
            && (forall i :: 0 <= i < |s.sessions| && s.sessions[i].status != Active ==>
                  s.sessions[i].refreshToken == None && s.sessions[i].previousToken == None)
            && Inv(s)
  {
    RunKeepsInv(NO_SESSIONS, steps);
  }

  // REVOKED is final and EXPIRED can only become REVOKED: ACTIVE is never re-entered.
  ghost predicate OnlyForward(a: SessionStatus, b: SessionStatus) {
    (a == Revoked ==> b == Revoked) && (a == Expired ==> b != Active)
  }

  lemma StepOnlyForward(s: State, step: Step, sid: nat)
    requires sid < |s.sessions|
    ensures sid < |Next(s, step).sessions|
    ensures OnlyForward(s.sessions[sid].status, Next(s, step).sessions[sid].status)
  {
  }

  lemma {:induction false} ActiveNeverReentered(s: State, steps: seq<Step>, sid: nat)
    requires sid < |s.sessions|
    ensures sid < |Run(s, steps).sessions|
    ensures OnlyForward(s.sessions[sid].status, Run(s, steps).sessions[sid].status)
  {
    if |steps| != 0 {
      ActiveNeverReentered(s, steps[..|steps| - 1], sid);
      StepOnlyForward(Run(s, steps[..|steps| - 1]), steps[|steps| - 1], sid);
    }
  }

  // The steps of one rotation; every other step is somebody else's.
  predicate StepOf(step: Step, pid: nat) {
    match step
    case DoRead(p, _, _, _, _) => p == pid
    case DoSwap(p, _) => p == pid
    case DoRevokeForReplay(p) => p == pid
    case DoMarkExpired(p) => p == pid
    case DoAbandon(p) => p == pid
    case _ => false
  }

  lemma {:induction false} OthersLeaveRotation(s: State, steps: seq<Step>, pid: nat)
    requires pid in s.rotations
    requires forall i :: 0 <= i < |steps| ==> !StepOf(steps[i], pid)
    ensures pid in Run(s, steps).rotations && Run(s, steps).rotations[pid] == s.rotations[pid]
  {
    if |steps| != 0 {
      OthersLeaveRotation(s, steps[..|steps| - 1], pid);
    }
  }

  // A rotation that loses the compare-and-set goes on to revoke its session,
  // whatever the others do before it gets there, and nothing after brings the
  // session back.
  lemma LoserRevokesForGood(s: State, pid: nat, now: int, between: seq<Step>, after: seq<Step>)
    requires Inv(s) && pid in s.rotations && s.rotations[pid].Swapping?
    requires !Swappable(s.sessions[s.rotations[pid].sid], s.rotations[pid].incoming)
    requires forall i :: 0 <= i < |between| ==> !StepOf(between[i], pid)
    ensures var sid := s.rotations[pid].sid;
            var t := Next(Run(Next(s, DoSwap(pid, now)), between), DoRevokeForReplay(pid));
            && sid < |Run(t, after).sessions| && Run(t, after).sessions[sid].status == Revoked
            && Run(t, after).sessions[sid].refreshToken == None
  {
    var sid := s.rotations[pid].sid;
    assert RotationOk(s, s.rotations[pid]);
    var lost := Next(s, DoSwap(pid, now));
    StepKeepsInv(s, DoSwap(pid, now));
    RunKeepsInv(lost, between);
    OthersLeaveRotation(lost, between, pid);
    var m := Run(lost, between);
    assert RotationOk(m, m.rotations[pid]);
    var t := Next(m, DoRevokeForReplay(pid));
    StepKeepsInv(m, DoRevokeForReplay(pid));
    assert t.sessions[sid].status == Revoked;
    ActiveNeverReentered(t, after, sid);
    RunKeepsInv(t, after);
  }

  // While a session stays ACTIVE its current token changes by rotation only.
  lemma {:induction false} RotatedOrCurrent(s: State, steps: seq<Step>, sid: nat, token: nat)
    requires Inv(s) && sid < |s.sessions| && s.sessions[sid].refreshToken == Some(token)
    ensures var t := Run(s, steps);
            && sid < |t.sessions| && |s.rotated| <= |t.rotated| && t.rotated[..|s.rotated|] == s.rotated
            && (t.sessions[sid].status == Active ==>
                  t.sessions[sid].refreshToken == Some(token) || (sid, token) in t.rotated[|s.rotated|..])
  {
    if |steps| != 0 {
      var m := Run(s, steps[..|steps| - 1]);
      var t := Next(m, steps[|steps| - 1]);
      RotatedOrCurrent(s, steps[..|steps| - 1], sid, token);
      if |t.rotated| > |m.rotated| {
        assert t.rotated == m.rotated + [t.rotated[|m.rotated|]];
        assert t.rotated[|s.rotated|..] == m.rotated[|s.rotated|..] + [t.rotated[|m.rotated|]];
      } else {
        assert t.rotated == m.rotated;
      }
    }
  }

  // A rotation whose read allowed the swap loses the compare-and-set if and only
  // if, since that read, its token was rotated by another or the session ended.
  lemma SwapLosesExactlyWhen(
    s: State, pid: nat, token: nat, device: nat, now: int, userActive: bool, between: seq<Step>)
    requires Inv(s) && pid !in s.rotations
    requires var plan := Plan(s.sessions, token, device, now, userActive, s.minted); plan.Some? && plan.value.Swapping?
    requires forall i :: 0 <= i < |between| ==> !StepOf(between[i], pid)
    ensures var read := Next(s, DoRead(pid, token, device, now, userActive));
            var t := Run(read, between);
            && pid in t.rotations && t.rotations[pid].Swapping?
            && var sid := t.rotations[pid].sid;
               && sid < |t.sessions| && |s.rotated| <= |t.rotated|
               && (!Swappable(t.sessions[sid], token)
                   <==> (sid, token) in t.rotated[|s.rotated|..] || t.sessions[sid].status != Active)
  {
    var read := Next(s, DoRead(pid, token, device, now, userActive));
    var t := Run(read, between);
    ReadKeepsInv(s, pid, token, device, now, userActive);
    OthersLeaveRotation(read, between, pid);
    RunKeepsInv(read, between);
    var sid := t.rotations[pid].sid;
    RotatedOrCurrent(read, between, sid, token);
    assert RotationOk(t, t.rotations[pid]);
    if (sid, token) in t.rotated[|s.rotated|..] {
      var k :| 0 <= k < |t.rotated[|s.rotated|..]| && t.rotated[|s.rotated|..][k] == (sid, token);
      assert t.rotated[|s.rotated| + k] == (sid, token);
    }
  }

  // Presenting a token revokes exactly when a session carries it and either the
  // device differs, or the session is usable and the token is its previous one.
  lemma ReplayDetectedExactly(s: State, pid: nat, token: nat, device: nat, now: int, userActive: bool)
    requires Inv(s) && pid !in s.rotations
    ensures var s' := Next(s, DoRead(pid, token, device, now, userActive));
            (pid in s'.rotations && s'.rotations[pid].Revoking?)
            <==> exists sid :: 0 <= sid < |s.sessions| && Carries(s.sessions[sid], token)
                   && (s.sessions[sid].deviceId != device
                       || (s.sessions[sid].status == Active && s.sessions[sid].expiresAt >= now && userActive
                           && s.sessions[sid].previousToken == Some(token)))
  {
    var found := FindByToken(s.sessions, token);
    if found.Some? {
      assert Carries(s.sessions[found.value], token);
      assert forall sid :: 0 <= sid < |s.sessions| && Carries(s.sessions[sid], token) ==> sid == found.value;
    }
  }

  /******* How far back replay is seen *******/

  function LatestOf(rotated: seq<(nat, nat)>, sid: nat): (token: Option<nat>)
    ensures token.None? <==> forall i :: 0 <= i < |rotated| ==> rotated[i].0 != sid
    ensures token.Some? ==> exists k :: 0 <= k < |rotated| && rotated[k] == (sid, token.value)
                                        && forall j :: k < j < |rotated| ==> rotated[j].0 != sid
  {
    if |rotated| == 0 then None
    else if rotated[|rotated| - 1].0 == sid then Some(rotated[|rotated| - 1].1)
    else LatestOf(rotated[..|rotated| - 1], sid)
  }

  // An ACTIVE session remembers the token of its latest rotation.
  ghost predicate PreviousIsLatest(s: State) {
    && (forall i :: 0 <= i < |s.rotated| ==> s.rotated[i].0 < |s.sessions|)
    && (forall sid :: 0 <= sid < |s.sessions| && s.sessions[sid].status == Active ==>
          s.sessions[sid].previousToken == LatestOf(s.rotated, sid))
  }

  lemma StepKeepsLatest(s: State, step: Step)
    requires PreviousIsLatest(s)
    ensures PreviousIsLatest(Next(s, step))
  {
    var s' := Next(s, step);
    if |s'.rotated| > |s.rotated| {
      assert s'.rotated[..|s'.rotated| - 1] == s.rotated;
    }
    forall sid | 0 <= sid < |s'.sessions| && s'.sessions[sid].status == Active
      ensures s'.sessions[sid].previousToken == LatestOf(s'.rotated, sid)
    {
    }
  }

  lemma {:induction false} RunKeepsLatest(steps: seq<Step>)
    ensures PreviousIsLatest(Run(NO_SESSIONS, steps))
  {
    if |steps| != 0 {
      RunKeepsLatest(steps[..|steps| - 1]);
      StepKeepsLatest(Run(NO_SESSIONS, steps[..|steps| - 1]), steps[|steps| - 1]);
    }
  }

  // A spent token is remembered by no session but its own.
  lemma SpentTokenStaysHome(s: State, k: nat, sid: nat)
    requires Inv(s) && PreviousIsLatest(s) && k < |s.rotated| && sid < |s.sessions|
    requires s.sessions[sid].previousToken == Some(s.rotated[k].1)
    ensures s.rotated[k].0 == sid && forall j :: k < j < |s.rotated| ==> s.rotated[j].0 != sid
  {
    var latest := LatestOf(s.rotated, sid);
    assert s.sessions[sid].status == Active;
    var m :| 0 <= m < |s.rotated| && s.rotated[m] == (sid, latest.value)
             && forall j :: m < j < |s.rotated| ==> s.rotated[j].0 != sid;
    assert m == k;
  }

  lemma SpentTokenPlan(s: State, k: nat, device: nat, now: int)
    requires Inv(s) && PreviousIsLatest(s) && k < |s.rotated|
    requires var sid := s.rotated[k].0;
             s.sessions[sid].deviceId == device && s.sessions[sid].status == Active && s.sessions[sid].expiresAt >= now
    ensures var (sid, token) := s.rotated[k];
            Plan(s.sessions, token, device, now, true, s.minted)
            == if forall j :: k < j < |s.rotated| ==> s.rotated[j].0 != sid then Some(Revoking(sid, false)) else None
  {
    var (sid, token) := s.rotated[k];
    var found := FindByToken(s.sessions, token);
    if found.Some? {
      assert s.sessions[found.value].previousToken == Some(token);
      SpentTokenStaysHome(s, k, found.value);
    }
    if forall j :: k < j < |s.rotated| ==> s.rotated[j].0 != sid {
      assert LatestOf(s.rotated, sid) == Some(token);
      assert Carries(s.sessions[sid], token);
    }
  }

  // A spent token presented again from its own device, while the session is
  // usable, revokes the session if and only if nothing was rotated in that
  // session since: replay is seen one generation back and no further.
  lemma ReplaySeenOneGenerationBack(steps: seq<Step>, k: nat, pid: nat, device: nat, now: int)
    requires k < |Run(NO_SESSIONS, steps).rotated|
    requires var s := Run(NO_SESSIONS, steps); var sid := s.rotated[k].0;
             pid !in s.rotations && sid < |s.sessions| && s.sessions[sid].deviceId == device
             && s.sessions[sid].status == Active && s.sessions[sid].expiresAt >= now
    ensures var s := Run(NO_SESSIONS, steps); var (sid, token) := s.rotated[k];
            var s' := Next(s, DoRead(pid, token, device, now, true));
            && ((pid in s'.rotations && s'.rotations[pid] == Revoking(sid, false))
                <==> forall j :: k < j < |s.rotated| ==> s.rotated[j].0 != sid)
            && (pid !in s'.rotations
                <==> exists j :: k < j < |s.rotated| && s.rotated[j].0 == sid)
  {
    RunKeepsInv(NO_SESSIONS, steps);
    RunKeepsLatest(steps);
    SpentTokenPlan(Run(NO_SESSIONS, steps), k, device, now);
  }

  // The oldest token of three is refused and its session stays ACTIVE; the middle
  // one revokes.
  const TWO_ROTATIONS :=
    [DoCreate(1, 5, 0), DoRead(0, 0, 5, 0, true), DoSwap(0, 0), DoRead(1, 1, 5, 0, true), DoSwap(1, 0)]

  lemma OnlySession(sessions: seq<Session>, token: nat)
    requires |sessions| == 1
    ensures FindByToken(sessions, token) == if Carries(sessions[0], token) then Some(0) else None
  {
    assert FindByToken(sessions[..0], token) == None;
  }

  lemma RotatedTwice()
    ensures Run(NO_SESSIONS, TWO_ROTATIONS)
            == State([Session(1, 5, Some(2), Some(1), 2, Active, REFRESH_TTL_MS, false)], 3, map[], [(0, 0), (0, 1)])
  {
    var steps := TWO_ROTATIONS;
    assert steps[..4][..3] == steps[..3] && steps[..3][..2] == steps[..2] && steps[..2][..1] == steps[..1];
    var s1 := State([NewSession(1, 5, 0, 0)], 1, map[], []);
    var s3 := State([Session(1, 5, Some(1), Some(0), 1, Active, REFRESH_TTL_MS, false)], 2, map[], [(0, 0)]);
    assert Run(NO_SESSIONS, steps[..1]) == s1;
    OnlySession(s1.sessions, 0);
    assert Run(NO_SESSIONS, steps[..2]) == s1.(minted := 2, rotations := map[0 := Swapping(0, 0, 1)]);
    assert Run(NO_SESSIONS, steps[..3]) == s3;
    OnlySession(s3.sessions, 1);
    assert Run(NO_SESSIONS, steps[..4]) == s3.(minted := 3, rotations := map[1 := Swapping(0, 1, 2)]);
  }

  lemma OldestTokenIsOnlyRefused()
    ensures var s := Run(NO_SESSIONS, TWO_ROTATIONS);
            && 2 !in Next(s, DoRead(2, 0, 5, 0, true)).rotations
            && Next(s, DoRead(2, 0, 5, 0, true)).sessions == s.sessions
            && Next(s, DoRead(2, 1, 5, 0, true)).rotations == map[2 := Revoking(0, false)]
  {
    RotatedTwice();
    var s := Run(NO_SESSIONS, TWO_ROTATIONS);
    OnlySession(s.sessions, 0);
    OnlySession(s.sessions, 1);
  }

  /******* Versions *******/

  function RotationsOf(sid: nat): ((nat, nat)) -> int {
    (r: (nat, nat)) => if r.0 == sid then 1 else 0
  }

  // refreshTokenVersion counts the session's successful rotations.
  ghost predicate VersionsCount(s: State) {
    && (forall i :: 0 <= i < |s.rotated| ==> s.rotated[i].0 < |s.sessions|)
    && (forall sid: nat :: sid < |s.sessions| ==> s.sessions[sid].version == Total(s.rotated, RotationsOf(sid)))
  }

  lemma {:induction false} NoRotations(rotated: seq<(nat, nat)>, sid: nat)
    requires forall i :: 0 <= i < |rotated| ==> rotated[i].0 != sid
    ensures Total(rotated, RotationsOf(sid)) == 0
  {
    if |rotated| != 0 { NoRotations(rotated[..|rotated| - 1], sid); }
  }

  lemma SwapCountsVersions(s: State, step: Step)
    requires VersionsCount(s) && |Next(s, step).rotated| > |s.rotated|
    ensures VersionsCount(Next(s, step))
  {
    var s' := Next(s, step);
    var last := s'.rotated[|s.rotated|];
    assert s'.rotated == s.rotated + [last];
    assert s'.sessions == s.sessions[last.0 := s'.sessions[last.0]];
    assert s'.sessions[last.0].version == s.sessions[last.0].version + 1;
    forall sid: nat | sid < |s'.sessions|
      ensures s'.sessions[sid].version == Total(s'.rotated, RotationsOf(sid))
    {
      TotalAppend(s.rotated, last, RotationsOf(sid));
    }
  }

  lemma StepCountsVersions(s: State, step: Step)
    requires VersionsCount(s)
    ensures VersionsCount(Next(s, step))
  {
    var s' := Next(s, step);
    if |s'.rotated| > |s.rotated| {
      SwapCountsVersions(s, step);
    } else {
      assert s'.rotated == s.rotated;
      assert forall sid: nat :: sid < |s.sessions| ==> s'.sessions[sid].version == s.sessions[sid].version;
      NoRotations(s.rotated, |s.sessions|);
    }
  }

  lemma {:induction false} VersionCountsRotations(steps: seq<Step>)
    ensures VersionsCount(Run(NO_SESSIONS, steps))
  {
    if |steps| != 0 {
      VersionCountsRotations(steps[..|steps| - 1]);
      StepCountsVersions(Run(NO_SESSIONS, steps[..|steps| - 1]), steps[|steps| - 1]);
    }
  }
}

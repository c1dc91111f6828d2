/** The view-change block of a block server: it collects the epoch confirmations and the votes
    against servers that every server broadcasts, and decides when an epoch is finished. */
module ViewChange {
  import opened Collections

  const MAX_EPOCH: nat := 10000

  type Id = string

  datatype Message =
    | Heartbeat(ip: Id)
    | Con(ip: Id, epoch: nat)
    | Malicious(ip: Id, target: Id, epoch: nat)
    | Other(ip: Id)

  datatype Proxy = Proxy(latestEpoch: nat, isValid: bool, voters: map<nat, set<Id>>, firstInvalid: nat)

  const NewProxy: Proxy := Proxy(0, true, map[], 0)

  /** `calls` are the calls of the malicious-server callback. */
  datatype State = State(proxies: map<Id, Proxy>, approve: seq<set<Id>>, stale: seq<bool>, calls: seq<(Id, nat)>)

  /** The epoch vectors have a fixed size and are indexed without a check. */
  predicate InRange(m: Message) {
    match m
    case Con(_, e) => e < MAX_EPOCH
    case Malicious(_, _, e) => e < MAX_EPOCH
    case _ => true
  }

  /** How many servers out of `n` may be faulty: the most such that more than two thirds are not. */
  function Faulty(n: nat): (f: nat)
    ensures n > 0 ==> 3 * f + 1 <= n <= 3 * f + 3
  {
    if n == 0 then 0 else (n - 1) / 3
  }

  /******* One message, on values *******/

  function Entry(proxies: map<Id, Proxy>, id: Id): Proxy {
    if id in proxies then proxies[id] else NewProxy
  }

  function Votes(p: Proxy, e: nat): set<Id> {
    if e in p.voters then p.voters[e] else {}
  }

  predicate IsValid(s: State, id: Id) { Entry(s.proxies, id).isValid }

  predicate Shape(s: State) { |s.approve| == |s.stale| == MAX_EPOCH }

  function ApproveFrom(approve: seq<set<Id>>, id: Id, e: nat): (r: seq<set<Id>>)
    ensures |r| == |approve|
  {
    seq(|approve|, i requires 0 <= i < |approve| => if i < e then approve[i] else approve[i] + {id})
  }

  function Invalidate(s: State, target: Id, e: nat): State
    requires Shape(s) && e < MAX_EPOCH
  {
    State(s.proxies[target := Entry(s.proxies, target).(isValid := false, firstInvalid := e)],
          ApproveFrom(s.approve, target, e), s.stale[e := true], s.calls + [(target, e)])
  }

  function Vote(n: nat, s: State, observer: Id, target: Id, e: nat): State
    requires Shape(s) && e < MAX_EPOCH
  {
    var p := Entry(s.proxies, target);
    if !p.isValid then s
    else
      var votes := Votes(p, e) + {observer};
      var t := s.(proxies := s.proxies[target := p.(voters := p.voters[e := votes])]);
      if |votes| >= Faulty(n) + 1 then Invalidate(t, target, e) else t
  }

  function Receive(n: nat, s: State, m: Message): State
    requires Shape(s) && InRange(m)
  {
    if !IsValid(s, m.ip) then s
    else
      var p := Entry(s.proxies, m.ip);
      match m
      case Heartbeat(ip) => s.(proxies := s.proxies[ip := p])
      case Con(ip, e) =>
        s.(proxies := s.proxies[ip := p.(latestEpoch := e)], approve := s.approve[e := s.approve[e] + {ip}])
      case Malicious(ip, target, e) => Vote(n, s.(proxies := s.proxies[ip := p]), ip, target, e)
      case Other(_) => s
  }

  function Initial(): State { State(map[], seq(MAX_EPOCH, i => {}), seq(MAX_EPOCH, i => false), []) }

  predicate AllInRange(h: seq<Message>) {
    forall i | 0 <= i < |h| :: InRange(h[i])
  }

  /** The state after a history of messages. */
  function After(n: nat, h: seq<Message>): (s: State)
    requires AllInRange(h)
    ensures Shape(s)
  {
    if h == [] then Initial()
    else
      var before := After(n, h[..|h| - 1]);
      ReceiveShape(n, before, h[|h| - 1]);
      Receive(n, before, h[|h| - 1])
  }

  lemma ReceiveShape(n: nat, s: State, m: Message)
    requires Shape(s) && InRange(m)
    ensures Shape(Receive(n, s, m))
  {
  }

  /** Message `i` of a history was accepted: its emitter was valid when it came. */
  ghost predicate Accepted(n: nat, h: seq<Message>, i: nat)
    requires AllInRange(h) && i < |h|
  {
    IsValid(After(n, h[..i]), h[i].ip)
  }

  /******* What every history keeps *******/

  /** Server `id` has approved epoch `e`: its confirmation was accepted, or it was found malicious by then. */
  ghost predicate Approved(n: nat, h: seq<Message>, id: Id, e: nat)
    requires AllInRange(h)
  {
    || (exists i :: 0 <= i < |h| && h[i] == Con(id, e) && Accepted(n, h, i))
    || (!IsValid(After(n, h), id) && Entry(After(n, h).proxies, id).firstInvalid <= e)
  }

  /** A message leaves a server that is already invalid alone. */
  lemma InvalidForever(n: nat, s: State, m: Message, id: Id)
    requires Shape(s) && InRange(m) && !IsValid(s, id)
    ensures Entry(Receive(n, s, m).proxies, id) == Entry(s.proxies, id)
  {
  }

  /** A server becomes invalid only by a vote for an epoch that reaches the threshold. */
  lemma BecomesInvalid(n: nat, s: State, m: Message, id: Id)
    requires Shape(s) && InRange(m) && IsValid(s, id) && !IsValid(Receive(n, s, m), id)
    ensures m.Malicious? && m.target == id && IsValid(s, m.ip)
    ensures var p := Entry(Receive(n, s, m).proxies, id);
            p.firstInvalid == m.epoch && Votes(p, m.epoch) == Votes(Entry(s.proxies, id), m.epoch) + {m.ip}
            && |Votes(p, m.epoch)| >= Faulty(n) + 1
  {
  }

  /** What one message does to the approvals. */
  lemma ApproveStep(n: nat, s: State, m: Message, id: Id, e: nat)
    requires Shape(s) && InRange(m) && e < MAX_EPOCH
    ensures var t := Receive(n, s, m);
            id in t.approve[e] <==>
              || id in s.approve[e]
              || (m == Con(id, e) && IsValid(s, id))
              || (IsValid(s, id) && !IsValid(t, id) && Entry(t.proxies, id).firstInvalid <= e)
  {
  }

  lemma ApprovedStep(n: nat, g: seq<Message>, m: Message, id: Id, e: nat)
    requires AllInRange(g) && InRange(m)
    ensures AllInRange(g + [m]) && After(n, g + [m]) == Receive(n, After(n, g), m)
    ensures var s, t := After(n, g), After(n, g + [m]);
            Approved(n, g + [m], id, e) <==>
              || Approved(n, g, id, e)
              || (m == Con(id, e) && IsValid(s, id))
              || (IsValid(s, id) && !IsValid(t, id) && Entry(t.proxies, id).firstInvalid <= e)
  {
    var h := g + [m];
    assert h[..|g|] == g;
    assert forall i | 0 <= i < |g| :: h[..i] == g[..i];
    assert forall i | 0 <= i < |g| :: h[i] == g[i] && (Accepted(n, h, i) <==> Accepted(n, g, i));
    var s := After(n, g);
    if !IsValid(s, id) { InvalidForever(n, s, m, id); }
    if m == Con(id, e) && IsValid(s, id) { assert h[|g|] == m && Accepted(n, h, |g|); }
  }

  /** A server is in the approve set of an epoch exactly when it approved it. */
  lemma {:induction false} ApproveSet(n: nat, h: seq<Message>, id: Id, e: nat)
    requires AllInRange(h) && e < MAX_EPOCH
    ensures id in After(n, h).approve[e] <==> Approved(n, h, id, e)
  {
    if h != [] {
      var g, m := h[..|h| - 1], h[|h| - 1];
      ApproveSet(n, g, id, e);
      ApproveStep(n, After(n, g), m, id, e);
      ApprovedStep(n, g, m, id, e);
      assert h == g + [m];
    }
  }

  lemma VoteNew(n: nat, s: State, m: Message, id: Id, e: nat, voter: Id)
    requires Shape(s) && InRange(m) && voter in Votes(Entry(Receive(n, s, m).proxies, id), e)
    ensures voter in Votes(Entry(s.proxies, id), e)
            || (m == Malicious(voter, id, e) && IsValid(s, voter) && IsValid(s, id))
  {
  }

  /** Every recorded vote was cast by a server that was valid at the time. */
  lemma {:induction false} VotesWereCast(n: nat, h: seq<Message>, id: Id, e: nat, voter: Id)
    requires AllInRange(h) && voter in Votes(Entry(After(n, h).proxies, id), e)
    ensures exists i :: 0 <= i < |h| && h[i] == Malicious(voter, id, e) && Accepted(n, h, i)
  {
    assert h != [];
    var g, m := h[..|h| - 1], h[|h| - 1];
    VoteNew(n, After(n, g), m, id, e, voter);
    if voter in Votes(Entry(After(n, g).proxies, id), e) {
      VotesWereCast(n, g, id, e, voter);
      var i :| 0 <= i < |g| && g[i] == Malicious(voter, id, e) && Accepted(n, g, i);
      assert g[..i] == h[..i];
      assert h[i] == Malicious(voter, id, e) && Accepted(n, h, i);
    } else {
      assert h[|h| - 1] == Malicious(voter, id, e) && Accepted(n, h, |h| - 1);
    }
  }

  /** An accepted vote against a valid server is recorded, and recorded votes stay. */
  lemma VoteRecorded(n: nat, s: State, m: Message, id: Id, e: nat)
    requires Shape(s) && InRange(m)
    ensures Votes(Entry(s.proxies, id), e) <= Votes(Entry(Receive(n, s, m).proxies, id), e)
    ensures m.Malicious? && m.target == id && m.epoch == e && IsValid(s, m.ip) && IsValid(s, id) ==>
              m.ip in Votes(Entry(Receive(n, s, m).proxies, id), e)
  {
  }

  /** Message `i` of a history is a vote of `voter` that counts: it was accepted while `id` was valid. */
  ghost predicate CastAt(n: nat, h: seq<Message>, i: nat, id: Id, e: nat, voter: Id)
    requires AllInRange(h) && i < |h|
  {
    h[i] == Malicious(voter, id, e) && Accepted(n, h, i) && IsValid(After(n, h[..i]), id)
  }

  ghost predicate Cast(n: nat, h: seq<Message>, id: Id, e: nat, voter: Id)
    requires AllInRange(h)
  {
    exists i: nat | i < |h| :: CastAt(n, h, i, id, e, voter)
  }

  lemma CastStep(n: nat, h: seq<Message>, id: Id, e: nat, voter: Id)
    requires AllInRange(h) && h != []
    ensures Cast(n, h, id, e, voter) <==> Cast(n, h[..|h| - 1], id, e, voter) || CastAt(n, h, |h| - 1, id, e, voter)
  {
    var g := h[..|h| - 1];
    forall i: nat | i < |g| ensures CastAt(n, g, i, id, e, voter) == CastAt(n, h, i, id, e, voter) {
      assert g[..i] == h[..i] && g[i] == h[i];
    }
    if i: nat :| i < |h| && CastAt(n, h, i, id, e, voter) { assert i < |g| ==> CastAt(n, g, i, id, e, voter); }
    if i: nat :| i < |g| && CastAt(n, g, i, id, e, voter) { assert CastAt(n, h, i, id, e, voter); }
  }

  /** A vote is recorded exactly when it was cast, accepted, while its target was valid. */
  lemma {:induction false} VotesExactly(n: nat, h: seq<Message>, id: Id, e: nat, voter: Id)
    requires AllInRange(h)
    ensures voter in Votes(Entry(After(n, h).proxies, id), e) <==> Cast(n, h, id, e, voter)
  {
    if h != [] {
      var g, m := h[..|h| - 1], h[|h| - 1];
      VotesExactly(n, g, id, e, voter);
      CastStep(n, h, id, e, voter);
      VoteRecorded(n, After(n, g), m, id, e);
      if voter in Votes(Entry(After(n, h).proxies, id), e) { VoteNew(n, After(n, g), m, id, e, voter); }
    }
  }

  /** A valid server has less than the threshold of votes for every epoch. */
  lemma {:induction false} ValidHasFew(n: nat, h: seq<Message>, id: Id, e: nat)
    requires AllInRange(h) && IsValid(After(n, h), id)
    ensures |Votes(Entry(After(n, h).proxies, id), e)| <= Faulty(n)
  {
    if h != [] {
      var g, m := h[..|h| - 1], h[|h| - 1];
      if !IsValid(After(n, g), id) { InvalidForever(n, After(n, g), m, id); }
      ValidHasFew(n, g, id, e);
      FewStep(n, After(n, g), m, id, e);
    }
  }

  lemma FewStep(n: nat, s: State, m: Message, id: Id, e: nat)
    requires Shape(s) && InRange(m) && IsValid(Receive(n, s, m), id) && |Votes(Entry(s.proxies, id), e)| <= Faulty(n)
    ensures |Votes(Entry(Receive(n, s, m).proxies, id), e)| <= Faulty(n)
  {
  }

  ghost predicate Accused(n: nat, h: seq<Message>, id: Id, e: nat, voters: set<Id>)
    requires AllInRange(h)
  {
    |voters| > Faulty(n) && forall v | v in voters :: Cast(n, h, id, e, v)
  }

  /** A server is invalid exactly when, for some epoch, one more than the faulty servers have cast votes against it
      that were accepted while it was valid. */
  lemma InvalidExactly(n: nat, h: seq<Message>, id: Id)
    requires AllInRange(h)
    ensures !IsValid(After(n, h), id) <==>
              exists e: nat, voters: set<Id> :: Accused(n, h, id, e, voters)
  {
    if !IsValid(After(n, h), id) {
      InvalidHasVotes(n, h, id);
      var p := Entry(After(n, h).proxies, id);
      var e, voters := p.firstInvalid, Votes(p, p.firstInvalid);
      forall v | v in voters ensures Cast(n, h, id, e, v) { VotesExactly(n, h, id, e, v); }
      assert Accused(n, h, id, e, voters);
    } else if e: nat, voters: set<Id> :| Accused(n, h, id, e, voters) {
      EnoughVotes(n, h, id, e, voters);
    }
  }

  lemma EnoughVotes(n: nat, h: seq<Message>, id: Id, e: nat, voters: set<Id>)
    requires AllInRange(h) && Accused(n, h, id, e, voters)
    ensures !IsValid(After(n, h), id)
  {
    if IsValid(After(n, h), id) {
      var votes := Votes(Entry(After(n, h).proxies, id), e);
      forall v | v in voters ensures v in votes { VotesExactly(n, h, id, e, v); }
      ValidHasFew(n, h, id, e);
      SubsetSize(voters, votes);
    }
  }

  /** An invalid server has the votes of one more than the faulty servers for one epoch. */
  lemma {:induction false} InvalidHasVotes(n: nat, h: seq<Message>, id: Id)
    requires AllInRange(h) && !IsValid(After(n, h), id)
    ensures var p := Entry(After(n, h).proxies, id); |Votes(p, p.firstInvalid)| >= Faulty(n) + 1
  {
    var g, m := h[..|h| - 1], h[|h| - 1];
    var s := After(n, g);
    if IsValid(s, id) {
      BecomesInvalid(n, s, m, id);
    } else {
      InvalidHasVotes(n, g, id);
      InvalidForever(n, s, m, id);
    }
  }

  /** When at most (n - 1) / 3 servers are faulty, an honest one voted against every invalid server. */
  lemma HonestVoter(n: nat, h: seq<Message>, id: Id, faulty: set<Id>)
    requires AllInRange(h) && !IsValid(After(n, h), id) && |faulty| <= Faulty(n)
    ensures exists i :: 0 <= i < |h| && h[i].Malicious? && h[i].target == id && h[i].ip !in faulty && Accepted(n, h, i)
                        && h[i].epoch == Entry(After(n, h).proxies, id).firstInvalid
  {
    InvalidHasVotes(n, h, id);
    var p := Entry(After(n, h).proxies, id);
    var votes := Votes(p, p.firstInvalid);
    if votes <= faulty { SubsetSize(votes, faulty); }
    var voter :| voter in votes && voter !in faulty;
    VotesWereCast(n, h, id, p.firstInvalid, voter);
  }

  /** The callback was called once for every invalid server, with the epoch it is invalid from. */
  ghost predicate CallsMatch(s: State) {
    && (forall id | !IsValid(s, id) :: (id, Entry(s.proxies, id).firstInvalid) in s.calls)
    && (forall i | 0 <= i < |s.calls| ::
          !IsValid(s, s.calls[i].0) && Entry(s.proxies, s.calls[i].0).firstInvalid == s.calls[i].1)
    && (forall i, j | 0 <= i < j < |s.calls| :: s.calls[i].0 != s.calls[j].0)
  }

  lemma CallsStep(n: nat, s: State, m: Message)
    requires Shape(s) && InRange(m) && CallsMatch(s)
    ensures CallsMatch(Receive(n, s, m))
  {
    var t := Receive(n, s, m);
    if t.calls == s.calls {
      forall id ensures IsValid(t, id) == IsValid(s, id) {
        if !IsValid(s, id) { InvalidForever(n, s, m, id); }
      }
    } else {
      assert m.Malicious? && t.calls == s.calls + [(m.target, m.epoch)] && IsValid(s, m.target);
      assert (m.target, m.epoch) == t.calls[|s.calls|];
      forall id | !IsValid(t, id) ensures (id, Entry(t.proxies, id).firstInvalid) in t.calls {
        if IsValid(s, id) { BecomesInvalid(n, s, m, id); } else { InvalidForever(n, s, m, id); }
      }
      forall i | 0 <= i < |s.calls|
        ensures !IsValid(t, s.calls[i].0) && Entry(t.proxies, s.calls[i].0).firstInvalid == s.calls[i].1
      {
        InvalidForever(n, s, m, s.calls[i].0);
      }
    }
  }

  lemma {:induction false} CalledOnce(n: nat, h: seq<Message>)
    requires AllInRange(h)
    ensures CallsMatch(After(n, h))
  {
    if h != [] {
      CalledOnce(n, h[..|h| - 1]);
      CallsStep(n, After(n, h[..|h| - 1]), h[|h| - 1]);
    }
  }

  /** An epoch is stale exactly when a server has become invalid from it on. */
  lemma {:induction false} StaleExactly(n: nat, h: seq<Message>, e: nat)
    requires AllInRange(h) && e < MAX_EPOCH
    ensures After(n, h).stale[e] <==> exists i: nat | i < |After(n, h).calls| :: After(n, h).calls[i].1 == e
  {
    if h != [] {
      var g, m := h[..|h| - 1], h[|h| - 1];
      StaleExactly(n, g, e);
      StaleStep(n, After(n, g), m, e);
    }
  }

  lemma StaleStep(n: nat, s: State, m: Message, e: nat)
    requires Shape(s) && InRange(m) && e < MAX_EPOCH
    requires s.stale[e] <==> exists i: nat | i < |s.calls| :: s.calls[i].1 == e
    ensures var t := Receive(n, s, m); t.stale[e] <==> exists i: nat | i < |t.calls| :: t.calls[i].1 == e
  {
    var t := Receive(n, s, m);
    if t.calls != s.calls {
      assert t.calls == s.calls + [(m.target, m.epoch)];
      assert t.calls[|s.calls|].1 == m.epoch;
      if i: nat :| i < |s.calls| && s.calls[i].1 == e { assert t.calls[i].1 == e; }
    }
  }

  /** The epoch of the last confirmation of a server that was accepted, or 0. */
  ghost function LastConfirmed(n: nat, h: seq<Message>, id: Id): nat
    requires AllInRange(h)
  {
    if h == [] then 0
    else
      var m := h[|h| - 1];
      if m.Con? && m.ip == id && Accepted(n, h, |h| - 1) then m.epoch else LastConfirmed(n, h[..|h| - 1], id)
  }

  lemma {:induction false} LatestExactly(n: nat, h: seq<Message>, id: Id)
    requires AllInRange(h)
    ensures Entry(After(n, h).proxies, id).latestEpoch == LastConfirmed(n, h, id)
  {
    if h != [] { LatestExactly(n, h[..|h| - 1], id); }
  }

  /******* Waiting for an epoch *******/

  predicate Finished(n: nat, s: State, e: nat)
    requires Shape(s) && e < MAX_EPOCH
  {
    |s.approve[e]| == n
  }

  /** Approvals are never withdrawn. */
  lemma ApprovalsGrow(n: nat, s: State, m: Message, e: nat)
    requires Shape(s) && InRange(m) && e < MAX_EPOCH
    ensures s.approve[e] <= Receive(n, s, m).approve[e]
  {
    forall id | id in s.approve[e] ensures id in Receive(n, s, m).approve[e] {
      ApproveStep(n, s, m, id, e);
    }
  }

  /** The message makes a server approve epoch `e` that has not approved it yet: by its own
      confirmation, or because the message is the vote that makes it invalid. */
  ghost predicate NewApproval(n: nat, s: State, m: Message, e: nat)
    requires Shape(s) && e < MAX_EPOCH
  {
    IsValid(s, m.ip) &&
    match m
    case Con(ip, f) => f == e && ip !in s.approve[e]
    case Malicious(ip, target, f) =>
      && f <= e && IsValid(s, target) && target !in s.approve[e]
      && |Votes(Entry(s.proxies, target), f) + {ip}| >= Faulty(n) + 1
    case _ => false
  }

  lemma ApprovesExactly(n: nat, s: State, m: Message, e: nat)
    requires Shape(s) && InRange(m) && e < MAX_EPOCH
    ensures NewApproval(n, s, m, e) <==> Receive(n, s, m).approve[e] != s.approve[e]
  {
    var t := Receive(n, s, m);
    forall id ensures id in t.approve[e] ==> id in s.approve[e] || NewApproval(n, s, m, e) {
      ApproveStep(n, s, m, id, e);
      if IsValid(s, id) && !IsValid(t, id) { BecomesInvalid(n, s, m, id); }
    }
    ApprovalsGrow(n, s, m, e);
    if NewApproval(n, s, m, e) { ApproveStep(n, s, m, if m.Con? then m.ip else m.target, e); }
  }

  /** A message undoes a finished epoch exactly when it makes somebody else approve it. */
  lemma FinishedStep(n: nat, s: State, m: Message, e: nat)
    requires Shape(s) && InRange(m) && e < MAX_EPOCH && Finished(n, s, e)
    ensures Finished(n, Receive(n, s, m), e) <==> !NewApproval(n, s, m, e)
  {
    ApprovesExactly(n, s, m, e);
    ApprovalsGrow(n, s, m, e);
    SubsetSize(s.approve[e], Receive(n, s, m).approve[e]);
  }

  lemma {:induction false} ApprovalsKept(n: nat, h: seq<Message>, k: nat, e: nat)
    requires AllInRange(h) && e < MAX_EPOCH && k <= |h|
    ensures After(n, h[..k]).approve[e] <= After(n, h).approve[e]
  {
    if k == |h| {
      assert h[..k] == h;
    } else {
      var g := h[..|h| - 1];
      assert g[..k] == h[..k];
      ApprovalsKept(n, g, k, e);
      ApprovalsGrow(n, After(n, g), h[|h| - 1], e);
    }
  }

  /** Message `j` of a history makes somebody else approve epoch `e`. */
  ghost predicate NewAt(n: nat, h: seq<Message>, j: nat, e: nat)
    requires AllInRange(h) && e < MAX_EPOCH && j < |h|
  {
    NewApproval(n, After(n, h[..j]), h[j], e)
  }

  lemma NewBefore(n: nat, h: seq<Message>, j: nat, e: nat)
    requires AllInRange(h) && e < MAX_EPOCH && j < |h| - 1
    ensures NewAt(n, h, j, e) == NewAt(n, h[..|h| - 1], j, e)
  {
    assert h[..|h| - 1][..j] == h[..j];
  }

  /** Over a whole history: an epoch finished after `k` messages is finished at the end exactly when
      no later message makes somebody else approve it. */
  lemma {:induction false} FinishedExactly(n: nat, h: seq<Message>, k: nat, e: nat)
    requires AllInRange(h) && e < MAX_EPOCH && k <= |h| && Finished(n, After(n, h[..k]), e)
    ensures Finished(n, After(n, h), e) <==> forall j: nat | k <= j < |h| :: !NewAt(n, h, j, e)
  {
    if k == |h| {
      assert h[..k] == h;
    } else {
      var g := h[..|h| - 1];
      assert g[..k] == h[..k];
      FinishedExactly(n, g, k, e);
      forall j: nat | k <= j < |g| ensures NewAt(n, h, j, e) == NewAt(n, g, j, e) { NewBefore(n, h, j, e); }
      FinishedLast(n, h, k, e);
    }
  }

  lemma FinishedLast(n: nat, h: seq<Message>, k: nat, e: nat)
    requires AllInRange(h) && e < MAX_EPOCH && k < |h| && Finished(n, After(n, h[..k]), e)
    ensures Finished(n, After(n, h), e) <==> Finished(n, After(n, h[..|h| - 1]), e) && !NewAt(n, h, |h| - 1, e)
  {
    var g := h[..|h| - 1];
    if Finished(n, After(n, g), e) { FinishedStep(n, After(n, g), h[|h| - 1], e); } else { TooMany(n, h, k, e); }
  }

  /** An epoch that was finished and has got more approvals is never finished again. */
  lemma TooMany(n: nat, h: seq<Message>, k: nat, e: nat)
    requires AllInRange(h) && e < MAX_EPOCH && k < |h| && Finished(n, After(n, h[..k]), e)
    requires !Finished(n, After(n, h[..|h| - 1]), e)
    ensures !Finished(n, After(n, h), e)
  {
    var g := h[..|h| - 1];
    assert g[..k] == h[..k];
    ApprovalsKept(n, g, k, e);
    SubsetSize(After(n, h[..k]).approve[e], After(n, g).approve[e]);
    ApprovalsGrow(n, After(n, g), h[|h| - 1], e);
    SubsetSize(After(n, g).approve[e], After(n, h).approve[e]);
  }

  ghost predicate Among(m: Message, servers: set<Id>) {
    m.ip in servers && (m.Malicious? ==> m.target in servers)
  }

  lemma {:induction false} ApproversAmong(n: nat, h: seq<Message>, servers: set<Id>, e: nat)
    requires AllInRange(h) && e < MAX_EPOCH && forall i | 0 <= i < |h| :: Among(h[i], servers)
    ensures After(n, h).approve[e] <= servers
  {
    if h != [] {
      var g, m := h[..|h| - 1], h[|h| - 1];
      ApproversAmong(n, g, servers, e);
      forall id | id in After(n, h).approve[e] ensures id in servers {
        ApproveStep(n, After(n, g), m, id, e);
        if IsValid(After(n, g), id) && !IsValid(After(n, h), id) { BecomesInvalid(n, After(n, g), m, id); }
      }
    }
  }

  /** When all messages are from and about the n servers, an epoch that is finished stays finished. */
  lemma FinishedForever(n: nat, h: seq<Message>, k: nat, servers: set<Id>, e: nat)
    requires AllInRange(h) && e < MAX_EPOCH && k <= |h| && |servers| == n
    requires forall i | 0 <= i < |h| :: Among(h[i], servers)
    requires Finished(n, After(n, h[..k]), e)
    ensures Finished(n, After(n, h), e)
  {
    ApprovalsKept(n, h, k, e);
    ApproversAmong(n, h, servers, e);
    SubsetSize(After(n, h[..k]).approve[e], After(n, h).approve[e]);
    SubsetSize(After(n, h).approve[e], servers);
  }

  /** A vote against an unknown server can undo a finished epoch. */
  lemma FinishedUndone()
    ensures exists h: seq<Message> ::
              AllInRange(h) && |h| == 2 && AllInRange(h[..1]) && Finished(1, After(1, h[..1]), 0)
                  && !Finished(1, After(1, h), 0)
  {
    var h := [Con("a", 0), Malicious("a", "ghost", 0)];
    assert h[..1] == [Con("a", 0)];
    var s0, s1 := After(1, []), After(1, h[..1]);
    assert h[..1][..0] == [] && h[..1][0] == Con("a", 0);
    assert s1 == Receive(1, s0, Con("a", 0));
    assert s1.approve[0] == {"a"};
    var s2 := After(1, h);
    assert s2 == Receive(1, s1, h[1]);
    assert s2.approve[0] == {"a", "ghost"};
    assert |{"a", "ghost"}| == 2 by { assert "a" != "ghost"; }
  }

  /******* The block itself *******/

  class ControlBlock {
    const totalServerCount: nat
    var proxies: map<Id, Proxy>
    const approve: array<set<Id>>
    const stale: array<bool>
    ghost var calls: seq<(Id, nat)>

    ghost predicate Valid()
      reads this, approve, stale
    {
      approve.Length == stale.Length == MAX_EPOCH
    }

    ghost function View(): State
      reads this, approve, stale
    {
      State(proxies, approve[..], stale[..], calls)
    }

    constructor (total: nat)
      ensures Valid() && View() == After(total, []) && totalServerCount == total && fresh(approve) && fresh(stale)
    {
      totalServerCount := total;
      proxies := map[];
      approve := new set<Id>[MAX_EPOCH](_ => {});
      stale := new bool[MAX_EPOCH](_ => false);
      calls := [];
      new;
      assert View().approve == Initial().approve && View().stale == Initial().stale;
    }

    /** Find a block of the table, making one for an unknown server. */
    method Lookup(id: Id) returns (p: Proxy)
      modifies `proxies
      ensures p == Entry(old(proxies), id) && proxies == old(proxies)[id := p]
    {
      if id !in proxies { proxies := proxies[id := NewProxy]; }
      p := proxies[id];
    }

    /** Let a malicious server approve every epoch from `e` on. */
    method ApproveAllFrom(target: Id, e: nat)
      requires Valid() && e < MAX_EPOCH
      modifies approve
      ensures approve[..] == ApproveFrom(old(approve[..]), target, e)
    {
      var i := e;
      while i < MAX_EPOCH
        invariant e <= i <= MAX_EPOCH
        invariant forall k | 0 <= k < MAX_EPOCH ::
                    approve[k] == if e <= k < i then old(approve[k]) + {target} else old(approve[k])
      {
        approve[i] := approve[i] + {target};
        i := i + 1;
      }
    }

    method MaliciousTarget(target: Id, e: nat)
      requires Valid() && e < MAX_EPOCH
      modifies this, approve, stale
      ensures View() == Invalidate(old(View()), target, e)
    {
      var p := Lookup(target);
      proxies := proxies[target := p.(isValid := false, firstInvalid := e)];
      calls := calls + [(target, e)];
      stale[e] := true;
      ApproveAllFrom(target, e);
    }

    method ObtainMalicious(observer: Id, target: Id, e: nat)
      requires Valid() && e < MAX_EPOCH
      modifies this, approve, stale
      ensures View() == Vote(totalServerCount, old(View()), observer, target, e)
    {
      var p := Lookup(target);
      if !p.isValid { return; }
      var votes := (if e in p.voters then p.voters[e] else {}) + {observer};
      proxies := proxies[target := p.(voters := p.voters[e := votes])];
      if |votes| >= (if totalServerCount == 0 then 0 else (totalServerCount - 1) / 3) + 1 {
        MaliciousTarget(target, e);
      }
    }

    method ConfirmedClientProxy(observer: Id, e: nat)
      requires Valid() && e < MAX_EPOCH
      modifies approve
      ensures approve[..] == old(approve[..])[e := old(approve[e]) + {observer}]
    {
      approve[e] := approve[e] + {observer};
    }

    /** Take one message. */
    method RecvProofSet(m: Message)
      requires Valid() && InRange(m)
      modifies this, approve, stale
      ensures View() == Receive(totalServerCount, old(View()), m)
    {
      if m.ip in proxies && !proxies[m.ip].isValid { return; }
      match m
      case Heartbeat(ip) =>
        var p := Lookup(ip);
      case Con(ip, e) =>
        var p := Lookup(ip);
        proxies := proxies[ip := p.(latestEpoch := e)];
        ConfirmedClientProxy(ip, e);
      case Malicious(ip, target, e) =>
        var p := Lookup(ip);
        if !p.isValid { return; }
        ObtainMalicious(ip, target, e);
      case Other(_) =>
    }

    /** Whether the coordinator may go on with an epoch. */
    method EpochFinished(e: nat) returns (r: bool)
      requires Valid() && e < MAX_EPOCH
      ensures Shape(View()) && r == Finished(totalServerCount, View(), e)
    {
      r := |approve[e]| == totalServerCount;
    }
  }
}

/** The epoch servers: they agree on the current epoch through one replicated log, which is an
    append-only sequence here. Each server has a thread that applies the log and a thread that
    answers requests and proposes the next epoch when its timer is out. */
module EpochServer {
  import opened Counting

  datatype UserPc = Idle | Loaded(epochNum: nat)

  /** `sizes` is the table of epoch sizes. For the proofs, `seen` is the epoch of the last answer, `proposed` and
      `responses` record what the server sent, and `requests` the size of every request answered, with the epoch
      that was loaded for it. */
  datatype Server = Server(
    epoch: nat, applied: nat, pc: UserPc, sizes: map<nat, nat>, total: nat, sent: bool,
    seen: nat, proposed: seq<nat>, responses: seq<(nat, nat)>, requests: seq<(nat, nat)>)

  /** `pending` are the proposals handed to the log and not appended yet. */
  datatype State = State(servers: seq<Server>, log: seq<nat>, pending: multiset<nat>)

  ghost predicate Init(s: State) {
    && (forall i | 0 <= i < |s.servers| :: s.servers[i] == Server(1, 0, Idle, map[], 0, false, 0, [], [], []))
    && s.log == [] && s.pending == multiset{}
  }

  /******* Steps *******/

  /** The log thread takes the next entry; only a larger epoch is stored. */
  function ApplyNext(v: Server, log: seq<nat>): Server
    requires v.applied < |log|
  {
    var expected := log[v.applied];
    v.(applied := v.applied + 1, epoch := if expected > v.epoch then expected else v.epoch)
  }

  /** Reading the size of the epoch before makes an entry for it. */
  function ReadBefore(sizes: map<nat, nat>, e: nat): map<nat, nat> {
    if e > 1 && e - 1 !in sizes then sizes[e - 1 := 0] else sizes
  }

  function Counted(sizes: map<nat, nat>, e: nat, size: nat): map<nat, nat> {
    sizes[e := (if e in sizes then sizes[e] else 0) + size]
  }

  /** The user thread finds its table without this epoch: a new epoch begins. */
  function Begin(v: Server, e: nat): Server {
    if e in v.sizes then v else v.(sizes := ReadBefore(v.sizes, e), sent := false)
  }

  /** The user thread answers a request of `size` transactions in the epoch it loaded. */
  function Answer(v: Server, e: nat, size: nat, timeout: bool): Server {
    var b := Begin(v, e);
    var propose := timeout && !b.sent;
    b.(pc := Idle, seen := e, sent := b.sent || propose,
       proposed := if propose then b.proposed + [e + 1] else b.proposed,
       total := b.total + size,
       sizes := Counted(b.sizes, e, size),
       responses := b.responses + [(e, b.total + size)],
       requests := b.requests + [(e, size)])
  }

  datatype Action = Commit(v: nat) | Apply(i: nat) | Load(i: nat) | Respond(i: nat, size: nat, timeout: bool)

  ghost predicate Enabled(s: State, a: Action) {
    match a
    case Commit(v) => v in s.pending
    case Apply(i) => i < |s.servers| && s.servers[i].applied < |s.log|
    case Load(i) => i < |s.servers| && s.servers[i].pc.Idle?
    case Respond(i, _, _) => i < |s.servers| && s.servers[i].pc.Loaded?
  }

  ghost function Do(s: State, a: Action): State
    requires Enabled(s, a)
  {
    match a
    case Commit(v) => s.(log := s.log + [v], pending := s.pending - multiset{v})
    case Apply(i) => s.(servers := s.servers[i := ApplyNext(s.servers[i], s.log)])
    case Load(i) => s.(servers := s.servers[i := s.servers[i].(pc := Loaded(s.servers[i].epoch))])
    case Respond(i, size, timeout) => Responded(s, i, Answer(s.servers[i], s.servers[i].pc.epochNum, size, timeout))
  }

  /** Server `i` becomes `w`; a proposal it made is handed to the log. */
  ghost function Responded(s: State, i: nat, w: Server): State
    requires i < |s.servers| && s.servers[i].pc.Loaded?
  {
    var v := s.servers[i];
    State(s.servers[i := w], s.log,
          if |w.proposed| > |v.proposed| then s.pending + multiset{v.pc.epochNum + 1} else s.pending)
  }

  ghost predicate Next(s: State, t: State) {
    exists a :: Enabled(s, a) && t == Do(s, a)
  }

  ghost predicate Run(tr: seq<State>) {
    tr != [] && Init(tr[0]) && forall n | 0 < n < |tr| :: StepAt(tr, n)
  }

  /** Moment `n` of a run comes from the one before by a step. */
  ghost predicate StepAt(tr: seq<State>, n: nat)
    requires 0 < n < |tr|
  {
    Next(tr[n - 1], tr[n])
  }

  /******* The epoch of a server *******/

  /** The epoch after a prefix of the log: its largest entry, and at least 1. */
  function Latest(log: seq<nat>): (r: nat)
    ensures r >= 1 && forall i | 0 <= i < |log| :: log[i] <= r
    ensures r == 1 || r in log
  {
    if log == [] then 1
    else
      var before, v := Latest(log[..|log| - 1]), log[|log| - 1];
      if v > before then v else before
  }

  /** Entry `k` is a new epoch, and unless it is epoch 2 it follows the epoch before it. */
  ghost predicate Follows(log: seq<nat>, k: nat)
    requires k < |log|
  {
    log[k] >= 2 && (log[k] > 2 ==> log[k] - 1 in log[..k])
  }

  ghost predicate NoGaps(log: seq<nat>) {
    forall k | 0 <= k < |log| :: Follows(log, k)
  }

  ghost predicate Reached(e: nat, log: seq<nat>) { e == 1 || (e >= 2 && e in log) }

  ghost predicate Increasing(s: seq<nat>) {
    forall i, j | 0 <= i < j < |s| :: s[i] < s[j]
  }

  /** The proposals of a server: one at most for each epoch it answered in, the last one only if marked sent. */
  ghost predicate ProposalsOk(v: Server) {
    && Increasing(v.proposed)
    && (forall k | 0 <= k < |v.proposed| :: v.proposed[k] <= (if v.sent then v.seen + 1 else v.seen))
    && (forall e | e in v.sizes :: e <= v.seen)
    && (v.seen > 0 ==> Noted(v.sizes, v.seen))
    && (v.sent ==> v.seen + 1 in v.proposed)
  }

  /** The sizes of all requests. */
  function Sum(requests: seq<(nat, nat)>): nat {
    if requests == [] then 0 else Sum(requests[..|requests| - 1]) + requests[|requests| - 1].1
  }

  /** The sizes of the requests of one epoch. */
  function SumIn(requests: seq<(nat, nat)>, e: nat): nat {
    if requests == [] then 0
    else
      var r := requests[|requests| - 1];
      SumIn(requests[..|requests| - 1], e) + if r.0 == e then r.1 else 0
  }

  /** Answer `k` has the epoch of its request, and as a nonce the sizes of all requests up to it. */
  ghost predicate ReplyAt(requests: seq<(nat, nat)>, responses: seq<(nat, nat)>, k: nat)
    requires k < |requests| == |responses|
  {
    responses[k] == (requests[k].0, Sum(requests[..k + 1]))
  }

  ghost predicate RepliesOk(requests: seq<(nat, nat)>, responses: seq<(nat, nat)>) {
    |responses| == |requests| && forall k | 0 <= k < |requests| :: ReplyAt(requests, responses, k)
  }

  /** The table has the sizes of every epoch with a request, and of the epoch before it. */
  ghost predicate SizesOk(requests: seq<(nat, nat)>, sizes: map<nat, nat>) {
    && (forall e | e in sizes :: sizes[e] == SumIn(requests, e))
    && (forall k | 0 <= k < |requests| :: Noted(sizes, requests[k].0))
  }

  predicate Noted(sizes: map<nat, nat>, e: nat) { e in sizes && (e > 1 ==> e - 1 in sizes) }

  ghost predicate NoncesOk(v: Server) {
    v.total == Sum(v.requests) && RepliesOk(v.requests, v.responses) && SizesOk(v.requests, v.sizes)
  }

  /** Answers carry epochs and nonces that never go back. */
  ghost predicate ResponsesOk(v: Server) {
    && (forall i, j | 0 <= i < j < |v.responses| ::
          v.responses[i].0 <= v.responses[j].0 && v.responses[i].1 <= v.responses[j].1)
    && (forall i | 0 <= i < |v.responses| :: v.responses[i].0 <= v.seen && v.responses[i].1 <= v.total)
  }

  ghost predicate EpochOk(v: Server, log: seq<nat>) {
    && v.applied <= |log| && v.epoch == Latest(log[..v.applied]) && Reached(v.epoch, log)
  }

  ghost predicate UserOk(v: Server, log: seq<nat>) {
    && v.seen <= v.epoch
    && (v.pc.Loaded? ==> v.seen <= v.pc.epochNum <= v.epoch && Reached(v.pc.epochNum, log))
    && ProposalsOk(v) && ResponsesOk(v) && NoncesOk(v)
  }

  ghost predicate ServerOk(v: Server, log: seq<nat>) { EpochOk(v, log) && UserOk(v, log) }

  /** A proposal is for the epoch after one that was reached. */
  ghost predicate PendingOk(pending: multiset<nat>, log: seq<nat>) {
    forall v | v in pending :: v >= 2 && (v > 2 ==> v - 1 in log)
  }

  ghost predicate Inv(s: State) {
    && NoGaps(s.log)
    && PendingOk(s.pending, s.log)
    && (forall i | 0 <= i < |s.servers| :: ServerOk(s.servers[i], s.log))
  }

  /******* Every step keeps the invariant *******/

  lemma LatestExtends(log: seq<nat>, v: nat, k: nat)
    requires k <= |log|
    ensures (log + [v])[..k] == log[..k]
  {
  }

  lemma CommitKeeps(s: State, v: nat)
    requires Inv(s) && v in s.pending
    ensures Inv(Do(s, Commit(v)))
  {
    var t := Do(s, Commit(v));
    forall k | 0 <= k < |t.log| ensures Follows(t.log, k) {
      assert k < |s.log| ==> Follows(s.log, k) && t.log[..k] == s.log[..k];
      assert k == |s.log| ==> t.log[..k] == s.log;
    }
    forall i | 0 <= i < |t.servers| ensures ServerOk(t.servers[i], t.log) {
      LatestExtends(s.log, v, s.servers[i].applied);
    }
    assert forall w | w in t.pending :: w in s.pending;
  }

  lemma ApplyKeeps(v: Server, log: seq<nat>)
    requires ServerOk(v, log) && NoGaps(log) && v.applied < |log|
    ensures ServerOk(ApplyNext(v, log), log) && ApplyNext(v, log).epoch >= v.epoch
  {
    var p, k := log[..v.applied + 1], v.applied;
    assert Follows(log, k);
    assert p[..k] == log[..k] && p[k] == log[k];
    assert Latest(p) == if log[k] > v.epoch then log[k] else v.epoch;
  }

  lemma AnswerProposals(v: Server, e: nat, size: nat, timeout: bool)
    requires ProposalsOk(v) && v.seen <= e && e > 0
    ensures var w := Answer(v, e, size, timeout);
            && ProposalsOk(w) && (w.proposed == v.proposed || w.proposed == v.proposed + [e + 1])
            && (timeout ==> e + 1 in w.proposed)
  {
    assert e !in v.sizes ==> v.seen < e;
  }

  lemma SumAppend(requests: seq<(nat, nat)>, e: nat, size: nat, f: nat)
    ensures Sum(requests + [(e, size)]) == Sum(requests) + size
    ensures SumIn(requests + [(e, size)], f) == SumIn(requests, f) + if e == f then size else 0
  {
    assert (requests + [(e, size)])[..|requests|] == requests;
  }

  lemma {:induction false} NoneIn(requests: seq<(nat, nat)>, e: nat)
    requires forall k | 0 <= k < |requests| :: requests[k].0 != e
    ensures SumIn(requests, e) == 0
  {
    if requests != [] { NoneIn(requests[..|requests| - 1], e); }
  }

  lemma MoreReplies(requests: seq<(nat, nat)>, responses: seq<(nat, nat)>, e: nat, size: nat)
    requires RepliesOk(requests, responses)
    ensures RepliesOk(requests + [(e, size)], responses + [(e, Sum(requests) + size)])
  {
    var more, replies := requests + [(e, size)], responses + [(e, Sum(requests) + size)];
    SumAppend(requests, e, size, e);
    forall k | 0 <= k < |more| ensures ReplyAt(more, replies, k) {
      if k < |requests| {
        assert ReplyAt(requests, responses, k) && more[..k + 1] == requests[..k + 1];
      } else {
        assert more[..k + 1] == more;
      }
    }
  }

  lemma ReadSizes(requests: seq<(nat, nat)>, sizes: map<nat, nat>, e: nat)
    requires SizesOk(requests, sizes)
    ensures SizesOk(requests, ReadBefore(sizes, e))
  {
    if e > 1 && e - 1 !in sizes { NoneIn(requests, e - 1); }
  }

  lemma MoreSizes(requests: seq<(nat, nat)>, sizes: map<nat, nat>, e: nat, size: nat)
    requires SizesOk(requests, sizes) && (e > 1 ==> e - 1 in sizes)
    ensures SizesOk(requests + [(e, size)], Counted(sizes, e, size))
  {
    var more, sizes' := requests + [(e, size)], Counted(sizes, e, size);
    forall f | f in sizes' ensures sizes'[f] == SumIn(more, f) {
      SumAppend(requests, e, size, f);
      if f !in sizes { NoneIn(requests, f); }
    }
    forall k | 0 <= k < |more| ensures Noted(sizes', more[k].0) {
      if k < |requests| { assert Noted(sizes, requests[k].0); }
    }
  }

  lemma BeginSizes(v: Server, e: nat)
    requires SizesOk(v.requests, v.sizes) && (e in v.sizes ==> Noted(v.sizes, e))
    ensures SizesOk(v.requests, Begin(v, e).sizes) && (e > 1 ==> e - 1 in Begin(v, e).sizes)
  {
    if e !in v.sizes { ReadSizes(v.requests, v.sizes, e); }
  }

  lemma SeenIsNoted(v: Server, e: nat)
    requires ProposalsOk(v) && v.seen <= e && e > 0
    ensures e in v.sizes ==> Noted(v.sizes, e)
  {
  }

  lemma AnswerSizes(v: Server, e: nat, size: nat, timeout: bool)
    requires SizesOk(v.requests, v.sizes) && (e in v.sizes ==> Noted(v.sizes, e))
    ensures var w := Answer(v, e, size, timeout); SizesOk(w.requests, w.sizes)
  {
    BeginSizes(v, e);
    MoreSizes(v.requests, Begin(v, e).sizes, e, size);
  }

  lemma AnswerReplies(v: Server, e: nat, size: nat, timeout: bool)
    requires v.total == Sum(v.requests) && RepliesOk(v.requests, v.responses)
    ensures var w := Answer(v, e, size, timeout); w.total == Sum(w.requests) && RepliesOk(w.requests, w.responses)
  {
    MoreReplies(v.requests, v.responses, e, size);
    SumAppend(v.requests, e, size, e);
  }

  lemma AnswerNonces(v: Server, e: nat, size: nat, timeout: bool)
    requires NoncesOk(v) && ProposalsOk(v) && v.seen <= e && e > 0
    ensures NoncesOk(Answer(v, e, size, timeout))
  {
    SeenIsNoted(v, e);
    AnswerSizes(v, e, size, timeout);
    AnswerReplies(v, e, size, timeout);
  }

  lemma AnswerResponses(v: Server, e: nat, size: nat, timeout: bool)
    requires ResponsesOk(v) && v.seen <= e
    ensures ResponsesOk(Answer(v, e, size, timeout))
  {
  }

  lemma AnswerKeeps(v: Server, log: seq<nat>, size: nat, timeout: bool)
    requires ServerOk(v, log) && v.pc.Loaded?
    ensures var w := Answer(v, v.pc.epochNum, size, timeout);
            && ServerOk(w, log)
            && (w.proposed == v.proposed || w.proposed == v.proposed + [v.pc.epochNum + 1])
            && (timeout ==> v.pc.epochNum + 1 in w.proposed)
  {
    var w := Answer(v, v.pc.epochNum, size, timeout);
    AnswerProposals(v, v.pc.epochNum, size, timeout);
    AnswerResponses(v, v.pc.epochNum, size, timeout);
    AnswerNonces(v, v.pc.epochNum, size, timeout);
    AnswerLeaves(v, v.pc.epochNum, size, timeout);
  }

  lemma AnswerLeaves(v: Server, e: nat, size: nat, timeout: bool)
    ensures var w := Answer(v, e, size, timeout);
            w.epoch == v.epoch && w.applied == v.applied && w.pc == Idle && w.seen == e
  {
  }

  lemma UpdateKeeps(s: State, i: nat, w: Server, pending: multiset<nat>)
    requires Inv(s) && i < |s.servers| && ServerOk(w, s.log)
    requires PendingOk(pending, s.log)
    ensures Inv(State(s.servers[i := w], s.log, pending))
  {
  }

  lemma RespondedKeeps(s: State, i: nat, w: Server)
    requires Inv(s) && i < |s.servers| && s.servers[i].pc.Loaded? && ServerOk(w, s.log)
    ensures Inv(Responded(s, i, w))
  {
    assert ServerOk(s.servers[i], s.log);
    ProposeKeeps(s.pending, s.log, s.servers[i].pc.epochNum);
    UpdateKeeps(s, i, w, Responded(s, i, w).pending);
  }

  lemma RespondKeeps(s: State, i: nat, size: nat, timeout: bool)
    requires Inv(s) && Enabled(s, Respond(i, size, timeout))
    ensures Inv(Do(s, Respond(i, size, timeout)))
  {
    var v := s.servers[i];
    assert ServerOk(v, s.log);
    AnswerKeeps(v, s.log, size, timeout);
    RespondedKeeps(s, i, Answer(v, v.pc.epochNum, size, timeout));
  }

  lemma ProposeKeeps(pending: multiset<nat>, log: seq<nat>, e: nat)
    requires PendingOk(pending, log) && Reached(e, log)
    ensures PendingOk(pending + multiset{e + 1}, log)
  {
  }

  lemma ServerStepKeeps(s: State, a: Action)
    requires Inv(s) && Enabled(s, a) && (a.Apply? || a.Load?)
    ensures Inv(Do(s, a))
  {
    var v := s.servers[a.i];
    if a.Apply? { ApplyKeeps(v, s.log); }
    UpdateKeeps(s, a.i, Do(s, a).servers[a.i], s.pending);
  }

  lemma DoKeeps(s: State, a: Action)
    requires Inv(s) && Enabled(s, a)
    ensures Inv(Do(s, a))
  {
    match a
    case Commit(v) => CommitKeeps(s, v);
    case Apply(_) => ServerStepKeeps(s, a);
    case Load(_) => ServerStepKeeps(s, a);
    case Respond(i, size, timeout) => RespondKeeps(s, i, size, timeout);
  }

  lemma NextKeeps(s: State, t: State)
    requires Inv(s) && Next(s, t)
    ensures Inv(t)
  {
    var a :| Enabled(s, a) && t == Do(s, a);
    DoKeeps(s, a);
  }

  lemma {:induction false} RunInv(tr: seq<State>, n: nat)
    requires Run(tr) && n < |tr|
    ensures Inv(tr[n])
  {
    if n > 0 {
      RunInv(tr, n - 1);
      assert StepAt(tr, n);
      NextKeeps(tr[n - 1], tr[n]);
    }
  }

  /******* Results *******/

  /** In every run the log has no gaps, every server is in the latest epoch of the prefix it applied,
      no server proposes an epoch twice, and its answers never go back and have the right nonces. */
  lemma EpochAgreement(tr: seq<State>, n: nat, i: nat)
    requires Run(tr) && n < |tr| && i < |tr[n].servers|
    ensures NoGaps(tr[n].log)
    ensures var v := tr[n].servers[i];
            v.applied <= |tr[n].log| && v.epoch == Latest(tr[n].log[..v.applied]) && Increasing(v.proposed)
                && ResponsesOk(v) && NoncesOk(v)
  {
    RunInv(tr, n);
    assert ServerOk(tr[n].servers[i], tr[n].log);
  }

  lemma ServerMonotone(s: State, a: Action, i: nat)
    requires Inv(s) && Enabled(s, a) && i < |s.servers|
    ensures |s.servers| == |Do(s, a).servers|
    ensures s.servers[i].epoch <= Do(s, a).servers[i].epoch && s.servers[i].applied <= Do(s, a).servers[i].applied
  {
    if a.Apply? { ApplyKeeps(s.servers[a.i], s.log); }
  }

  lemma DoMonotone(s: State, a: Action)
    requires Inv(s) && Enabled(s, a)
    ensures s.log <= Do(s, a).log && |s.servers| == |Do(s, a).servers|
    ensures forall i | 0 <= i < |s.servers| ::
              s.servers[i].epoch <= Do(s, a).servers[i].epoch && s.servers[i].applied <= Do(s, a).servers[i].applied
  {
    forall i | 0 <= i < |s.servers|
      ensures s.servers[i].epoch <= Do(s, a).servers[i].epoch && s.servers[i].applied <= Do(s, a).servers[i].applied
    {
      ServerMonotone(s, a, i);
    }
  }

  ghost predicate NotBack(s: State, t: State) {
    && s.log <= t.log && |s.servers| == |t.servers|
    && forall i | 0 <= i < |s.servers| ::
         s.servers[i].epoch <= t.servers[i].epoch && s.servers[i].applied <= t.servers[i].applied
  }

  lemma NextMonotone(s: State, t: State)
    requires Inv(s) && Next(s, t)
    ensures NotBack(s, t)
  {
    var a :| Enabled(s, a) && t == Do(s, a);
    DoMonotone(s, a);
  }

  lemma NotBackTransitive(s: State, t: State, u: State)
    requires NotBack(s, t) && NotBack(t, u)
    ensures NotBack(s, u)
  {
  }

  /** Over a run the log only grows, and the epoch of a server never goes back. */
  lemma {:induction false} EpochMonotone(tr: seq<State>, m: nat, n: nat)
    requires Run(tr) && m <= n < |tr|
    ensures NotBack(tr[m], tr[n])
  {
    if m < n {
      EpochMonotone(tr, m, n - 1);
      RunInv(tr, n - 1);
      assert StepAt(tr, n);
      NextMonotone(tr[n - 1], tr[n]);
      NotBackTransitive(tr[m], tr[n - 1], tr[n]);
    }
  }

  /** A log without gaps passes through every epoch up to its latest. */
  lemma {:induction false} AllEpochsLogged(log: seq<nat>, e: nat)
    requires NoGaps(log) && 2 <= e <= Latest(log)
    ensures e in log
    decreases Latest(log) - e
  {
    if e < Latest(log) {
      AllEpochsLogged(log, e + 1);
      var k :| 0 <= k < |log| && log[k] == e + 1;
      assert Follows(log, k);
    }
  }

  /** Servers that applied the same number of entries are in the same epoch, even at different times. */
  lemma SamePrefixSameEpoch(tr: seq<State>, m: nat, n: nat, i: nat, j: nat)
    requires Run(tr) && m <= n < |tr| && i < |tr[m].servers| && j < |tr[n].servers|
    requires tr[m].servers[i].applied == tr[n].servers[j].applied
    ensures tr[m].servers[i].epoch == tr[n].servers[j].epoch
  {
    EpochAgreement(tr, m, i);
    EpochAgreement(tr, n, j);
    EpochMonotone(tr, m, n);
    var k := tr[m].servers[i].applied;
    assert tr[m].log[..k] == tr[n].log[..k];
  }

  /******* Epochs are asked for *******/

  /** Every proposal is on its way to the log or in it. */
  ghost predicate HandedOn(proposed: seq<nat>, pending: multiset<nat>, log: seq<nat>) {
    forall k | 0 <= k < |proposed| :: proposed[k] in pending || proposed[k] in log
  }

  ghost predicate Handed(s: State) {
    forall i | 0 <= i < |s.servers| :: HandedOn(s.servers[i].proposed, s.pending, s.log)
  }

  lemma HandedCommit(proposed: seq<nat>, pending: multiset<nat>, log: seq<nat>, v: nat)
    requires HandedOn(proposed, pending, log) && v in pending
    ensures HandedOn(proposed, pending - multiset{v}, log + [v])
  {
  }

  lemma HandedRespond(proposed: seq<nat>, pending: multiset<nat>, log: seq<nat>, e: nat)
    requires HandedOn(proposed, pending, log)
    ensures HandedOn(proposed, pending + multiset{e}, log) && HandedOn(proposed + [e], pending + multiset{e}, log)
  {
  }

  lemma RespondHands(s: State, i: nat, size: nat, timeout: bool)
    requires Inv(s) && Handed(s) && Enabled(s, Respond(i, size, timeout))
    ensures Handed(Do(s, Respond(i, size, timeout)))
  {
    var v := s.servers[i];
    var w := Answer(v, v.pc.epochNum, size, timeout);
    assert ServerOk(v, s.log);
    AnswerProposals(v, v.pc.epochNum, size, timeout);
    RespondedHands(s, i, w);
  }

  lemma RespondedHands(s: State, i: nat, w: Server)
    requires Handed(s) && i < |s.servers| && s.servers[i].pc.Loaded?
    requires var v := s.servers[i]; w.proposed == v.proposed || w.proposed == v.proposed + [v.pc.epochNum + 1]
    ensures Handed(Responded(s, i, w))
  {
    var v, t := s.servers[i], Responded(s, i, w);
    forall j | 0 <= j < |t.servers| ensures HandedOn(t.servers[j].proposed, t.pending, t.log) {
      HandedRespond(s.servers[j].proposed, s.pending, s.log, v.pc.epochNum + 1);
    }
  }

  lemma NextHands(s: State, t: State)
    requires Inv(s) && Handed(s) && Next(s, t)
    ensures Handed(t)
  {
    var a :| Enabled(s, a) && t == Do(s, a);
    match a
    case Commit(v) =>
      forall i | 0 <= i < |s.servers| ensures HandedOn(s.servers[i].proposed, t.pending, t.log) {
        HandedCommit(s.servers[i].proposed, s.pending, s.log, v);
      }
    case Apply(_) =>
    case Load(_) =>
    case Respond(i, size, timeout) => RespondHands(s, i, size, timeout);
  }

  lemma {:induction false} RunHanded(tr: seq<State>, n: nat)
    requires Run(tr) && n < |tr|
    ensures Handed(tr[n])
  {
    if n > 0 {
      RunHanded(tr, n - 1);
      RunInv(tr, n - 1);
      assert StepAt(tr, n);
      NextHands(tr[n - 1], tr[n]);
    }
  }

  /** A server that answers with its timer out has proposed the next epoch, then or before in the same epoch, and
      its proposal is on its way to the log or in it. */
  lemma TimeoutProposes(tr: seq<State>, n: nat, i: nat, size: nat)
    requires Run(tr) && 0 < n < |tr| && Enabled(tr[n - 1], Respond(i, size, true))
    requires tr[n] == Do(tr[n - 1], Respond(i, size, true))
    ensures var e := tr[n - 1].servers[i].pc.epochNum;
            e + 1 in tr[n].servers[i].proposed && (e + 1 in tr[n].pending || e + 1 in tr[n].log)
  {
    RunInv(tr, n - 1);
    RunHanded(tr, n);
    AnswersPropose(tr[n - 1], i, size);
    assert HandedOn(tr[n].servers[i].proposed, tr[n].pending, tr[n].log);
  }

  lemma AnswersPropose(s: State, i: nat, size: nat)
    requires Inv(s) && Enabled(s, Respond(i, size, true))
    ensures s.servers[i].pc.epochNum + 1 in Do(s, Respond(i, size, true)).servers[i].proposed
  {
    assert ServerOk(s.servers[i], s.log);
    AnswerProposals(s.servers[i], s.servers[i].pc.epochNum, size, true);
  }

  /******* Every proposal is logged once *******/

  /** How often `v` has been proposed, by each server. */
  ghost function Counts(servers: seq<Server>, v: nat): seq<int> {
    seq(|servers|, i requires 0 <= i < |servers| => multiset(servers[i].proposed)[v])
  }

  /** An epoch is in the log and on its way to it as often as it has been proposed. */
  ghost predicate Accounted(s: State, v: nat) {
    multiset(s.log)[v] + s.pending[v] == Total(Counts(s.servers, v))
  }

  lemma SameProposed(s: State, i: nat, w: Server, v: nat)
    requires i < |s.servers| && w.proposed == s.servers[i].proposed
    ensures Counts(s.servers[i := w], v) == Counts(s.servers, v)
  {
  }

  lemma CommitAccounts(s: State, v: nat, x: nat)
    requires v in s.pending && Accounted(s, x)
    ensures Accounted(Do(s, Commit(v)), x)
  {
    assert multiset(s.log + [v]) == multiset(s.log) + multiset{v};
  }

  lemma RespondAccounts(s: State, i: nat, size: nat, timeout: bool, x: nat)
    requires Inv(s) && Enabled(s, Respond(i, size, timeout)) && Accounted(s, x)
    ensures Accounted(Do(s, Respond(i, size, timeout)), x)
  {
    var v := s.servers[i];
    assert ServerOk(v, s.log);
    var e := v.pc.epochNum;
    AnswerProposals(v, e, size, timeout);
    ProposedAccounts(s, i, Answer(v, e, size, timeout), x);
  }

  lemma ProposedAccounts(s: State, i: nat, w: Server, x: nat)
    requires i < |s.servers| && s.servers[i].pc.Loaded? && Accounted(s, x)
    requires var v := s.servers[i]; w.proposed == v.proposed || w.proposed == v.proposed + [v.pc.epochNum + 1]
    ensures Accounted(Responded(s, i, w), x)
  {
    var v := s.servers[i];
    var e: nat := v.pc.epochNum + 1;
    assert multiset(v.proposed + [e]) == multiset(v.proposed) + multiset{e};
    TotalUpdate(Counts(s.servers, x), i, multiset(w.proposed)[x]);
    assert Counts(s.servers[i := w], x) == Counts(s.servers, x)[i := multiset(w.proposed)[x]];
  }

  lemma NextAccounts(s: State, t: State, x: nat)
    requires Inv(s) && Next(s, t) && Accounted(s, x)
    ensures Accounted(t, x)
  {
    var a :| Enabled(s, a) && t == Do(s, a);
    match a
    case Commit(v) => CommitAccounts(s, v, x);
    case Apply(i) => SameProposed(s, i, t.servers[i], x);
    case Load(i) => SameProposed(s, i, t.servers[i], x);
    case Respond(i, size, timeout) => RespondAccounts(s, i, size, timeout, x);
  }

  /** In every run: nothing is logged that was not proposed, nothing more often than it was, and nothing is lost. */
  lemma {:induction false} RunAccounted(tr: seq<State>, n: nat, x: nat)
    requires Run(tr) && n < |tr|
    ensures Accounted(tr[n], x)
  {
    if n == 0 {
      TotalZero(Counts(tr[0].servers, x));
    } else {
      RunAccounted(tr, n - 1, x);
      RunInv(tr, n - 1);
      assert StepAt(tr, n);
      NextAccounts(tr[n - 1], tr[n], x);
    }
  }

  /******* Which epoch an answer has *******/

  /** The epoch that a server answers with is the one it was in when it took the request. */
  ghost predicate TakenAt(tr: seq<State>, m: nat, n: nat, i: nat, e: nat)
    requires m < n < |tr|
  {
    && i < |tr[m].servers| == |tr[n].servers| && tr[m].servers[i].pc.Idle? && tr[m].servers[i].epoch == e
    && forall k | m < k <= n :: i < |tr[k].servers| && tr[k].servers[i].pc == Loaded(e)
  }

  lemma LoadStep(s: State, t: State, i: nat, e: nat)
    requires Next(s, t) && i < |t.servers| && t.servers[i].pc == Loaded(e)
    ensures i < |s.servers| == |t.servers|
    ensures s.servers[i].pc == Loaded(e) || (s.servers[i].pc.Idle? && s.servers[i].epoch == e)
  {
  }

  lemma {:induction false} LoadedWhen(tr: seq<State>, n: nat, i: nat) returns (m: nat)
    requires Run(tr) && n < |tr| && i < |tr[n].servers| && tr[n].servers[i].pc.Loaded?
    ensures m < n && TakenAt(tr, m, n, i, tr[n].servers[i].pc.epochNum)
  {
    m := n - 1;
    assert StepAt(tr, n);
    LoadStep(tr[n - 1], tr[n], i, tr[n].servers[i].pc.epochNum);
    if tr[n - 1].servers[i].pc.Loaded? { m := LoadedWhen(tr, n - 1, i); }
  }
}

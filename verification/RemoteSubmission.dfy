/** Sending one job to one machine over a link that drops replies, from a sender that may crash and send
    again: what the receiving side's duplicate scan guarantees. */
module RemoteSubmission {
  import opened Wrappers
  import opened OriginLabels

  /** How many of its newest jobs the receiver looks through. */
  const SCANNED := 500

  datatype NodeJob = NodeJob(text: string, live: bool)

  /** One receiving process: before its scan, or after it with what it found. */
  datatype Receiver = Arrived(job: nat) | Looked(job: nat, found: Option<nat>)

  datatype Reply = Reply(job: nat, id: nat)

  /** A job's id on the node is its place in `jobs`. `placed` is what the sender has recorded; `here` are the
      jobs it started on its own machine. */
  datatype Link = Link(
    jobs: seq<NodeJob>, receivers: map<int, Receiver>, replies: set<Reply>, placed: map<nat, nat>, here: set<nat>)

  // ---- the duplicate scan ------------------------------------------------

  datatype Listed = Listed(id: nat, job: NodeJob)

  /** The first job listed that carries this label and has not ended. */
  function ExistingSubmission(listed: seq<Listed>, text: string): Option<nat> {
    if listed == [] then None
    else if listed[0].job.text == text && listed[0].job.live then Some(listed[0].id)
    else ExistingSubmission(listed[1..], text)
  }

  predicate Scanned(jobs: seq<NodeJob>, id: nat) {
    |jobs| - SCANNED <= id < |jobs|
  }

  predicate LiveCopy(jobs: seq<NodeJob>, id: nat, text: string)
    requires id < |jobs|
  {
    jobs[id].live && jobs[id].text == text
  }

  /** What the scan may answer: a live copy within reach, or none when there is none within reach. */
  ghost predicate Answers(jobs: seq<NodeJob>, text: string, found: Option<nat>) {
    match found
    case Some(id) => id < |jobs| && Scanned(jobs, id) && LiveCopy(jobs, id, text)
    case None => forall id :: 0 <= id < |jobs| && Scanned(jobs, id) ==> !LiveCopy(jobs, id, text)
  }

  /** The newest jobs, each as the table has it. */
  ghost predicate Lists(listed: seq<Listed>, jobs: seq<NodeJob>) {
    forall e: Listed :: e in listed <==> e.id < |jobs| && Scanned(jobs, e.id) && e.job == jobs[e.id]
  }

  /** In whatever order the newest jobs are listed, the scan answers so. */
  lemma {:induction false} ScanAnswers(jobs: seq<NodeJob>, listed: seq<Listed>, text: string)
    requires Lists(listed, jobs)
    ensures Answers(jobs, text, ExistingSubmission(listed, text))
    ensures ExistingSubmission(listed, text).None? <==>
      forall id :: 0 <= id < |jobs| && id + 500 >= |jobs| && jobs[id].live ==> jobs[id].text != text
  {
    FirstLive(listed, text);
    forall id | 0 <= id < |jobs| && Scanned(jobs, id) ensures Listed(id, jobs[id]) in listed {
    }
  }

  predicate LiveEntry(e: Listed, text: string) {
    e.job.live && e.job.text == text
  }

  lemma {:induction false} FirstLive(listed: seq<Listed>, text: string)
    ensures match ExistingSubmission(listed, text)
      case Some(id) => exists e :: e in listed && e.id == id && LiveEntry(e, text)
      case None => forall e :: e in listed ==> !LiveEntry(e, text)
  {
    if listed != [] && !LiveEntry(listed[0], text) {
      FirstLive(listed[1..], text);
      assert listed == [listed[0]] + listed[1..];
    }
  }

  // ---- steps -------------------------------------------------------------

  datatype Event =
    | Send(p: int, job: nat)            // the spec reaches the node and a receiver starts
    | Look(p: int, found: Option<nat>)  // the duplicate scan
    | LookFails(p: int)                 // the scan raised: the submission goes ahead without it
    | Accept(p: int)                    // adopt what was found, or create the job; reply
    | Record(reply: Reply)              // the reply arrives and the sender claims the row
    | LoseReply(reply: Reply)
    | Crash                             // the sender forgets everything not recorded
    | Unplace(job: nat)                 // the sender's row is queued again
    | StartHere(job: nat)               // the sender starts the job itself, its row still queued
    | EndsHere(job: nat)
    | Ends(id: nat)                     // a job on the node turns terminal
    | OtherWork(text: string)           // the node gets a job that is not one of this sender's

  function LabelOf(host: string, job: nat): string {
    OriginLabel(host, job)
  }

  predicate Foreign(host: string, text: string) {
    var origin := ParseOriginLabel(text);
    origin.None? || origin.value.host != host
  }

  ghost predicate Possible(host: string, s: Link, ev: Event) {
    match ev
    case Send(p, _) => p !in s.receivers
    case Look(p, found) =>
      p in s.receivers && s.receivers[p].Arrived? && Answers(s.jobs, LabelOf(host, s.receivers[p].job), found)
    case LookFails(p) => p in s.receivers && s.receivers[p].Arrived?
    case Accept(p) => p in s.receivers && s.receivers[p].Looked?
    case Record(reply) => reply in s.replies
    case LoseReply(reply) => reply in s.replies
    case Crash => true
    case Unplace(job) => job in s.placed
    case StartHere(job) => job !in s.placed && job !in s.here
    case EndsHere(job) => job in s.here
    case Ends(id) => id < |s.jobs|
    case OtherWork(text) => Foreign(host, text)
  }

  ghost function After(host: string, s: Link, ev: Event): Link
    requires Possible(host, s, ev)
  {
    match ev
    case Send(p, job) => s.(receivers := s.receivers[p := Arrived(job)])
    case Look(p, found) => s.(receivers := s.receivers[p := Looked(s.receivers[p].job, found)])
    case LookFails(p) => s.(receivers := s.receivers[p := Looked(s.receivers[p].job, None)])
    case Accept(p) => Accepted(host, s, p)
    case Record(reply) =>
      var rest := s.(replies := s.replies - {reply});
      if reply.job in s.placed || reply.job in s.here then rest else rest.(placed := s.placed[reply.job := reply.id])
    case LoseReply(reply) => s.(replies := s.replies - {reply})
    case Crash => s.(replies := {})
    case Unplace(job) => s.(placed := s.placed - {job})
    case StartHere(job) => s.(here := s.here + {job})
    case EndsHere(job) => s.(here := s.here - {job})
    case Ends(id) => s.(jobs := s.jobs[id := s.jobs[id].(live := false)])
    case OtherWork(text) => s.(jobs := s.jobs + [NodeJob(text, true)])
  }

  function Accepted(host: string, s: Link, p: int): Link
    requires p in s.receivers && s.receivers[p].Looked?
  {
    var receiver, rest := s.receivers[p], s.receivers - {p};
    match receiver.found
    case Some(id) => s.(receivers := rest, replies := s.replies + {Reply(receiver.job, id)})
    case None =>
      s.(receivers := rest, jobs := s.jobs + [NodeJob(LabelOf(host, receiver.job), true)],
         replies := s.replies + {Reply(receiver.job, |s.jobs|)})
  }

  /** Whatever a receiver found it answers for: a copy it found is the one it names, and nothing is created; having
      found none it creates one job, live and with the sender's label, and names that. */
  lemma {:induction false} EveryReceiverAnswers(host: string, s: Link, p: int)
    requires Possible(host, s, Accept(p))
    ensures var s', receiver := After(host, s, Accept(p)), s.receivers[p];
      && s'.placed == s.placed && s'.here == s.here && s'.receivers == s.receivers - {p}
      && if receiver.found.Some?
         then s'.jobs == s.jobs && s'.replies == s.replies + {Reply(receiver.job, receiver.found.value)}
         else && |s'.jobs| == |s.jobs| + 1 && s'.jobs[..|s.jobs|] == s.jobs
              && s'.jobs[|s.jobs|] == NodeJob("wq-origin:" + host + ":" + Decimal(receiver.job), true)
              && s'.replies == s.replies + {Reply(receiver.job, |s.jobs|)}
  {
    assert PREFIX + ":" == "wq-origin:";
  }

  // ---- what every step keeps ---------------------------------------------

  predicate IdNames(host: string, s: Link, job: nat, id: nat) {
    id < |s.jobs| && s.jobs[id].text == LabelOf(host, job)
  }

  /** Every id under way or recorded names a job that carries that row's own label. */
  ghost predicate Named(host: string, s: Link) {
    && (forall reply :: reply in s.replies ==> IdNames(host, s, reply.job, reply.id))
    && (forall job :: job in s.placed ==> IdNames(host, s, job, s.placed[job]))
    && (forall p :: p in s.receivers ==> ReceiverNames(host, s, p))
  }

  predicate ReceiverNames(host: string, s: Link, p: int)
    requires p in s.receivers
  {
    var receiver := s.receivers[p];
    receiver.Looked? && receiver.found.Some? ==> IdNames(host, s, receiver.job, receiver.found.value)
  }

  lemma {:induction false} NamesLast(host: string, s: Link, s': Link)
    requires Named(host, s)
    requires |s.jobs| <= |s'.jobs| && forall id :: 0 <= id < |s.jobs| ==> s'.jobs[id].text == s.jobs[id].text
    requires s'.replies <= s.replies && s'.receivers.Keys <= s.receivers.Keys
    requires forall p :: p in s'.receivers ==> s'.receivers[p] == s.receivers[p]
    requires s'.placed.Keys <= s.placed.Keys && forall job :: job in s'.placed ==> s'.placed[job] == s.placed[job]
    ensures Named(host, s')
  {
    forall p | p in s'.receivers ensures ReceiverNames(host, s', p) {
      assert ReceiverNames(host, s, p);
    }
    forall reply | reply in s'.replies ensures IdNames(host, s', reply.job, reply.id) {
      assert IdNames(host, s, reply.job, reply.id);
    }
    forall job | job in s'.placed ensures IdNames(host, s', job, s'.placed[job]) {
      assert IdNames(host, s, job, s.placed[job]);
    }
  }

  lemma {:induction false} AcceptKeepsNamed(host: string, s: Link, p: int)
    requires Named(host, s) && p in s.receivers && s.receivers[p].Looked?
    ensures Named(host, Accepted(host, s, p))
  {
    var s' := Accepted(host, s, p);
    assert ReceiverNames(host, s, p);
    NamesLast(host, s, s'.(replies := s.replies));
  }

  lemma {:induction false} StepKeepsNamed(host: string, s: Link, ev: Event)
    requires Named(host, s) && Possible(host, s, ev)
    ensures Named(host, After(host, s, ev))
  {
    var s' := After(host, s, ev);
    match ev
    case Accept(p) => AcceptKeepsNamed(host, s, p);
    case Send(p, _) => ReceiverStepKeepsNamed(host, s, s', p);
    case Look(p, _) => ReceiverStepKeepsNamed(host, s, s', p);
    case LookFails(p) => ReceiverStepKeepsNamed(host, s, s', p);
    case Record(reply) => assert IdNames(host, s, reply.job, reply.id);
    case _ => NamesLast(host, s, s');
  }

  lemma {:induction false} ReceiverStepKeepsNamed(host: string, s: Link, s': Link, p: int)
    requires Named(host, s) && p in s'.receivers && s' == s.(receivers := s.receivers[p := s'.receivers[p]])
    requires p in s.receivers ==> ReceiverNames(host, s, p)
    requires s'.receivers[p].Looked? && s'.receivers[p].found.Some? ==>
      Answers(s.jobs, LabelOf(host, s'.receivers[p].job), s'.receivers[p].found)
    ensures Named(host, s')
  {
    forall q | q in s'.receivers ensures ReceiverNames(host, s', q) {
      if q != p {
        assert ReceiverNames(host, s, q);
      }
    }
  }

  // ---- at most one copy --------------------------------------------------

  ghost predicate OneCopy(jobs: seq<NodeJob>, text: string) {
    forall i, j :: 0 <= i < |jobs| && 0 <= j < |jobs| && LiveCopy(jobs, i, text) && LiveCopy(jobs, j, text) ==> i == j
  }

  ghost predicate NoCopy(jobs: seq<NodeJob>, text: string) {
    forall id :: 0 <= id < |jobs| ==> !LiveCopy(jobs, id, text)
  }

  /** The scan can see every live copy. */
  ghost predicate InReach(jobs: seq<NodeJob>, text: string) {
    forall id :: 0 <= id < |jobs| && LiveCopy(jobs, id, text) ==> Scanned(jobs, id)
  }

  /** No other receiver of the same job has already looked. */
  ghost predicate Alone(s: Link, p: int)
    requires p in s.receivers
  {
    forall q :: q in s.receivers && q != p && s.receivers[q].job == s.receivers[p].job ==> s.receivers[q].Arrived?
  }

  /** When the duplicate scan can be relied on: it completes, sees every live copy, and does not overlap
      another receiver of the same job between its scan and its answer. */
  ghost predicate Careful(host: string, s: Link, ev: Event)
    requires Possible(host, s, ev)
  {
    match ev
    case Look(p, _) => InReach(s.jobs, LabelOf(host, s.receivers[p].job)) && Alone(s, p)
    case LookFails(_) => false
    case _ => true
  }

  /** One job's share of the invariant: one live copy at most; none while a receiver that found none is
      about to create one, and then it is the only receiver to have looked. */
  ghost predicate Unique(host: string, s: Link, job: nat) {
    && OneCopy(s.jobs, LabelOf(host, job))
    && (forall p :: p in s.receivers && s.receivers[p] == Looked(job, None) ==> NoCopy(s.jobs, LabelOf(host, job)))
    && (forall p, q :: p in s.receivers && q in s.receivers && p != q && s.receivers[p].job == job == s.receivers[q].job
          ==> s.receivers[p].Arrived? || s.receivers[q].Arrived?)
  }

  lemma {:induction false} AcceptKeepsUnique(host: string, s: Link, p: int, job: nat)
    requires Unique(host, s, job) && p in s.receivers && s.receivers[p].Looked?
    ensures Unique(host, Accepted(host, s, p), job)
  {
    var s', text := Accepted(host, s, p), LabelOf(host, job);
    assert s'.receivers == s.receivers - {p};
    if s.receivers[p].job != job {
      if LabelOf(host, s.receivers[p].job) == text {
        LabelsAreUnique(host, s.receivers[p].job, host, job);
      }
      UnrelatedWork(s.jobs, s'.jobs, text);
    } else if s.receivers[p].found.None? {
      assert NoCopy(s.jobs, text);
      FirstCopy(s.jobs, text);
      forall q | q in s'.receivers ensures s'.receivers[q] != Looked(job, None) {
      }
    } else {
      assert s'.jobs == s.jobs;
    }
  }

  lemma {:induction false} FirstCopy(jobs: seq<NodeJob>, text: string)
    requires NoCopy(jobs, text)
    ensures OneCopy(jobs + [NodeJob(text, true)], text)
  {
    var jobs' := jobs + [NodeJob(text, true)];
    forall id | 0 <= id < |jobs| ensures !LiveCopy(jobs', id, text) {
      assert !LiveCopy(jobs, id, text);
    }
  }

  /** Jobs added with another label, or ending, make no copies. */
  lemma {:induction false} UnrelatedWork(jobs: seq<NodeJob>, jobs': seq<NodeJob>, text: string)
    requires forall id :: 0 <= id < |jobs'| && LiveCopy(jobs', id, text) ==> id < |jobs| && LiveCopy(jobs, id, text)
    ensures OneCopy(jobs, text) ==> OneCopy(jobs', text)
    ensures NoCopy(jobs, text) ==> NoCopy(jobs', text)
  {
  }

  lemma {:induction false} StepKeepsUnique(host: string, s: Link, ev: Event, job: nat)
    requires Unique(host, s, job) && Possible(host, s, ev) && Careful(host, s, ev)
    ensures Unique(host, After(host, s, ev), job)
  {
    var s', text := After(host, s, ev), LabelOf(host, job);
    match ev
    case Accept(p) => AcceptKeepsUnique(host, s, p, job);
    case Ends(id) => UnrelatedWork(s.jobs, s'.jobs, text);
    case OtherWork(other) =>
      LabelRoundTrip(host, job);
      UnrelatedWork(s.jobs, s'.jobs, text);
    case Look(p, found) => LookKeepsUnique(host, s, p, found, job);
    case _ =>
  }

  lemma {:induction false} LookKeepsUnique(host: string, s: Link, p: int, found: Option<nat>, job: nat)
    requires Unique(host, s, job) && Possible(host, s, Look(p, found)) && Careful(host, s, Look(p, found))
    ensures Unique(host, After(host, s, Look(p, found)), job)
  {
    if s.receivers[p].job == job && found.None? {
      assert NoCopy(s.jobs, LabelOf(host, job));
    }
  }

  // ---- runs --------------------------------------------------------------

  ghost predicate Steps(host: string, s: Link, ev: Event, s': Link) {
    Possible(host, s, ev) && s' == After(host, s, ev)
  }

  ghost predicate Run(host: string, ss: seq<Link>, evs: seq<Event>) {
    && |ss| == |evs| + 1 && ss[0] == Link([], map[], {}, map[], {})
    && forall k :: 0 <= k < |evs| ==> Steps(host, ss[k], evs[k], ss[k + 1])
  }

  ghost predicate CarefulRun(host: string, ss: seq<Link>, evs: seq<Event>)
    requires Run(host, ss, evs)
  {
    forall k :: 0 <= k < |evs| ==> Steps(host, ss[k], evs[k], ss[k + 1]) && Careful(host, ss[k], evs[k])
  }

  /** Whatever is lost, repeated or crashes, and whether or not the scan is reliable, an id the sender
      records names a job on the node that carries that row's own label. */
  lemma {:induction false} RecordedIdsNameTheirJob(host: string, ss: seq<Link>, evs: seq<Event>, k: nat)
    requires Run(host, ss, evs) && k <= |evs|
    ensures Named(host, ss[k])
    ensures forall job :: job in ss[k].placed ==> IdNames(host, ss[k], job, ss[k].placed[job])
  {
    if k > 0 {
      RecordedIdsNameTheirJob(host, ss, evs, k - 1);
      assert Steps(host, ss[k - 1], evs[k - 1], ss[k - 1 + 1]);
      StepKeepsNamed(host, ss[k - 1], evs[k - 1]);
    }
  }

  /** And no row is ever recorded as placed while its job runs here, however late replies arrive. */
  lemma {:induction false} NeverPlacedWhileHere(host: string, ss: seq<Link>, evs: seq<Event>, k: nat)
    requires Run(host, ss, evs) && k <= |evs|
    ensures forall job :: job in ss[k].here ==> job !in ss[k].placed
  {
    if k > 0 {
      NeverPlacedWhileHere(host, ss, evs, k - 1);
      assert Steps(host, ss[k - 1], evs[k - 1], ss[k - 1 + 1]);
    }
  }

  /** Submission is idempotent: over every run with a reliable scan, however often a spec is sent again,
      each label has at most one live job on the node at any time. */
  lemma {:induction false} AtMostOneLiveCopy(host: string, ss: seq<Link>, evs: seq<Event>, k: nat, job: nat)
    requires Run(host, ss, evs) && CarefulRun(host, ss, evs) && k <= |evs|
    ensures Unique(host, ss[k], job)
    ensures OneCopy(ss[k].jobs, LabelOf(host, job))
  {
    if k > 0 {
      AtMostOneLiveCopy(host, ss, evs, k - 1, job);
      assert Steps(host, ss[k - 1], evs[k - 1], ss[k - 1 + 1]) && Careful(host, ss[k - 1], evs[k - 1]);
      StepKeepsUnique(host, ss[k - 1], evs[k - 1], job);
    }
  }

  // ---- exactly when there are two ----------------------------------------

  /** This event creates a copy of the job although the node already has a live one. */
  ghost predicate Duplicates(host: string, s: Link, ev: Event, job: nat) {
    && ev.Accept? && ev.p in s.receivers && s.receivers[ev.p] == Looked(job, None)
    && !NoCopy(s.jobs, LabelOf(host, job))
  }

  /** At some time the node has two live copies of the job. */
  ghost predicate EverTwice(host: string, ss: seq<Link>, job: nat) {
    exists k :: 0 <= k < |ss| && !OneCopy(ss[k].jobs, LabelOf(host, job))
  }

  ghost predicate EverDuplicates(host: string, ss: seq<Link>, evs: seq<Event>, job: nat)
    requires |ss| == |evs| + 1
  {
    exists k :: 0 <= k < |evs| && Duplicates(host, ss[k], evs[k], job)
  }

  lemma {:induction false} AcceptKeepsOneCopy(host: string, s: Link, p: int, job: nat)
    requires p in s.receivers && s.receivers[p].Looked? && OneCopy(s.jobs, LabelOf(host, job))
    ensures OneCopy(Accepted(host, s, p).jobs, LabelOf(host, job)) <==> !Duplicates(host, s, Accept(p), job)
  {
    var jobs, text := Accepted(host, s, p).jobs, LabelOf(host, job);
    if s.receivers[p] == Looked(job, None) {
      CreatingACopy(s.jobs, text);
    } else if s.receivers[p].found.None? {
      if LabelOf(host, s.receivers[p].job) == text {
        LabelsAreUnique(host, s.receivers[p].job, host, job);
      }
      UnrelatedWork(s.jobs, jobs, text);
    }
  }

  lemma {:induction false} CreatingACopy(jobs: seq<NodeJob>, text: string)
    requires OneCopy(jobs, text)
    ensures OneCopy(jobs + [NodeJob(text, true)], text) <==> NoCopy(jobs, text)
  {
    var jobs' := jobs + [NodeJob(text, true)];
    if NoCopy(jobs, text) {
      FirstCopy(jobs, text);
    } else {
      var id :| 0 <= id < |jobs| && LiveCopy(jobs, id, text);
      assert LiveCopy(jobs', id, text) && LiveCopy(jobs', |jobs|, text);
    }
  }

  lemma {:induction false} StepKeepsOneCopy(host: string, s: Link, ev: Event, s': Link, job: nat)
    requires OneCopy(s.jobs, LabelOf(host, job)) && Steps(host, s, ev, s')
    ensures OneCopy(s'.jobs, LabelOf(host, job)) <==> !Duplicates(host, s, ev, job)
  {
    match ev
    case Accept(p) => AcceptKeepsOneCopy(host, s, p, job);
    case OtherWork(_) =>
      LabelRoundTrip(host, job);
      UnrelatedWork(s.jobs, s'.jobs, LabelOf(host, job));
    case _ => UnrelatedWork(s.jobs, s'.jobs, LabelOf(host, job));
  }

  lemma {:induction false} OneCopyUntilDuplicated(host: string, ss: seq<Link>, evs: seq<Event>, k: nat, job: nat)
    requires Run(host, ss, evs) && k <= |evs|
    requires forall i :: 0 <= i < k ==> !Duplicates(host, ss[i], evs[i], job)
    ensures OneCopy(ss[k].jobs, LabelOf(host, job))
  {
    if k > 0 {
      OneCopyUntilDuplicated(host, ss, evs, k - 1, job);
      assert Steps(host, ss[k - 1], evs[k - 1], ss[k - 1 + 1]);
      StepKeepsOneCopy(host, ss[k - 1], evs[k - 1], ss[k], job);
    }
  }

  /** In any run the node ever has two live copies of a job exactly when some receiver creates one while
      there is one. */
  lemma {:induction false} TwiceExactlyWhenDuplicated(host: string, ss: seq<Link>, evs: seq<Event>, job: nat)
    requires Run(host, ss, evs)
    ensures EverTwice(host, ss, job) <==> EverDuplicates(host, ss, evs, job)
  {
    if EverTwice(host, ss, job) && !EverDuplicates(host, ss, evs, job) {
      var k :| 0 <= k < |ss| && !OneCopy(ss[k].jobs, LabelOf(host, job));
      OneCopyUntilDuplicated(host, ss, evs, k, job);
    }
    if EverDuplicates(host, ss, evs, job) {
      var k :| 0 <= k < |evs| && Duplicates(host, ss[k], evs[k], job);
      assert Steps(host, ss[k], evs[k], ss[k + 1]);
      if OneCopy(ss[k].jobs, LabelOf(host, job)) {
        StepKeepsOneCopy(host, ss[k], evs[k], ss[k + 1], job);
      }
    }
  }

  /** Jobs keep their place and label, and none comes back to life. */
  lemma {:induction false} CopiesWereLive(
      host: string, ss: seq<Link>, evs: seq<Event>, i: nat, k: nat, id: nat, text: string)
    requires Run(host, ss, evs) && i <= k <= |evs|
    ensures |ss[i].jobs| <= |ss[k].jobs|
    ensures id < |ss[i].jobs| && LiveCopy(ss[k].jobs, id, text) ==> LiveCopy(ss[i].jobs, id, text)
  {
    if i < k {
      CopiesWereLive(host, ss, evs, i, k - 1, id, text);
      assert Steps(host, ss[k - 1], evs[k - 1], ss[k - 1 + 1]);
    }
  }

  /** When this receiver looked, and what its look was. */
  ghost predicate LookedAt(host: string, ss: seq<Link>, evs: seq<Event>, i: nat, p: int, job: nat)
    requires |ss| == |evs| + 1 && i < |evs|
  {
    && p in ss[i].receivers && ss[i].receivers[p] == Arrived(job)
    && (evs[i] == LookFails(p) || (evs[i] == Look(p, None) && Answers(ss[i].jobs, LabelOf(host, job), None)))
  }

  lemma {:induction false} WhenItLooked(host: string, ss: seq<Link>, evs: seq<Event>, k: nat, p: int, job: nat)
      returns (i: nat)
    requires Run(host, ss, evs) && k <= |evs|
    requires p in ss[k].receivers && ss[k].receivers[p] == Looked(job, None)
    ensures i < k && LookedAt(host, ss, evs, i, p, job)
  {
    assert k > 0;
    assert Steps(host, ss[k - 1], evs[k - 1], ss[k - 1 + 1]);
    if p in ss[k - 1].receivers && ss[k - 1].receivers[p] == Looked(job, None) {
      i := WhenItLooked(host, ss, evs, k - 1, p, job);
    } else {
      i := k - 1;
    }
  }

  /** Why: of a receiver that creates a second copy, either the scan failed; or, for every live copy there
      then is, the scan was made before that copy existed, or could not reach it. */
  lemma {:induction false} WhyDuplicated(host: string, ss: seq<Link>, evs: seq<Event>, k: nat, job: nat)
      returns (i: nat)
    requires Run(host, ss, evs) && k < |evs| && Duplicates(host, ss[k], evs[k], job)
    ensures i < k && LookedAt(host, ss, evs, i, evs[k].p, job)
    ensures
      || evs[i].LookFails?
      || (forall id :: 0 <= id < |ss[k].jobs| && LiveCopy(ss[k].jobs, id, LabelOf(host, job)) ==>
            id >= |ss[i].jobs| || (LiveCopy(ss[i].jobs, id, LabelOf(host, job)) && !Scanned(ss[i].jobs, id)))
  {
    i := WhenItLooked(host, ss, evs, k, evs[k].p, job);
    forall id | 0 <= id < |ss[k].jobs| && LiveCopy(ss[k].jobs, id, LabelOf(host, job))
      ensures evs[i].LookFails? || id >= |ss[i].jobs|
        || (LiveCopy(ss[i].jobs, id, LabelOf(host, job)) && !Scanned(ss[i].jobs, id))
    {
      CopiesWereLive(host, ss, evs, i, k, id, LabelOf(host, job));
    }
  }

  // ---- each of the three happens -----------------------------------------

  lemma {:induction false} Extended(host: string, ss: seq<Link>, evs: seq<Event>, ev: Event)
      returns (ss': seq<Link>, evs': seq<Event>)
    requires Run(host, ss, evs) && Possible(host, ss[|evs|], ev)
    ensures Run(host, ss', evs') && evs' == evs + [ev] && ss'[|evs'|] == After(host, ss[|evs|], ev)
  {
    ss', evs' := ss + [After(host, ss[|evs|], ev)], evs + [ev];
    forall k | 0 <= k < |evs'| ensures Steps(host, ss'[k], evs'[k], ss'[k + 1]) {
      assert k < |evs| ==> Steps(host, ss[k], evs[k], ss[k + 1]);
    }
  }

  /** The job is sent, its receiver looks, or fails to, and a copy is created. */
  lemma {:induction false} SentAgain(host: string, ss: seq<Link>, evs: seq<Event>, job: nat, look: Event)
      returns (ss': seq<Link>, evs': seq<Event>)
    requires Run(host, ss, evs) && ss[|evs|].receivers == map[]
    requires look == LookFails(1) || (look == Look(1, None) && Answers(ss[|evs|].jobs, LabelOf(host, job), None))
    ensures Run(host, ss', evs') && evs' == evs + [Send(1, job), look, Accept(1)]
    ensures ss'[|evs'|].receivers == map[]
    ensures ss'[|evs'|].jobs == ss[|evs|].jobs + [NodeJob(LabelOf(host, job), true)]
  {
    ss', evs' := Extended(host, ss, evs, Send(1, job));
    ss', evs' := Extended(host, ss', evs', look);
    ss', evs' := Extended(host, ss', evs', Accept(1));
    assert evs' == evs + [Send(1, job), look, Accept(1)];
  }

  function Begun(): seq<Link> {
    [Link([], map[], {}, map[], {})]
  }

  lemma {:induction false} TwoCopies(jobs: seq<NodeJob>, i: nat, j: nat, text: string)
    requires i < j < |jobs| && jobs[i] == jobs[j] == NodeJob(text, true)
    ensures !OneCopy(jobs, text)
  {
    assert LiveCopy(jobs, i, text) && LiveCopy(jobs, j, text);
  }

  /** The scan of the second receiver raises. */
  lemma {:induction false} FailedScanDuplicates(host: string, job: nat) returns (ss: seq<Link>, evs: seq<Event>)
    ensures Run(host, ss, evs) && EverTwice(host, ss, job)
    ensures evs == [Send(1, job), Look(1, None), Accept(1)] + [Send(1, job), LookFails(1), Accept(1)]
  {
    ss, evs := SentAgain(host, Begun(), [], job, Look(1, None));
    ss, evs := SentAgain(host, ss, evs, job, LookFails(1));
    TwoCopies(ss[|evs|].jobs, 0, 1, LabelOf(host, job));
  }

  /** Two receivers look before either has answered. */
  lemma {:induction false} OverlappingReceiversDuplicate(host: string, job: nat)
      returns (ss: seq<Link>, evs: seq<Event>)
    ensures Run(host, ss, evs) && EverTwice(host, ss, job)
    ensures evs == [Send(1, job), Send(2, job), Look(1, None), Look(2, None), Accept(1), Accept(2)]
  {
    ss, evs := Extended(host, Begun(), [], Send(1, job));
    ss, evs := Extended(host, ss, evs, Send(2, job));
    ss, evs := Extended(host, ss, evs, Look(1, None));
    ss, evs := Extended(host, ss, evs, Look(2, None));
    ss, evs := Extended(host, ss, evs, Accept(1));
    ss, evs := Extended(host, ss, evs, Accept(2));
    TwoCopies(ss[|evs|].jobs, 0, 1, LabelOf(host, job));
  }

  function OtherJobs(n: nat): seq<Event> {
    if n == 0 then [] else OtherJobs(n - 1) + [OtherWork("")]
  }

  /** The node gets `n` other jobs. */
  lemma {:induction false} NodeIsBusy(host: string, ss: seq<Link>, evs: seq<Event>, n: nat)
      returns (ss': seq<Link>, evs': seq<Event>)
    requires Run(host, ss, evs)
    ensures Run(host, ss', evs') && evs' == evs + OtherJobs(n)
    ensures var jobs, jobs' := ss[|evs|].jobs, ss'[|evs'|].jobs;
      && |jobs'| == |jobs| + n && jobs'[..|jobs|] == jobs
      && forall id :: |jobs| <= id < |jobs'| ==> jobs'[id].text == ""
    ensures ss'[|evs'|].receivers == ss[|evs|].receivers
  {
    if n == 0 {
      ss', evs' := ss, evs;
    } else {
      ss', evs' := NodeIsBusy(host, ss, evs, n - 1);
      assert ParseOriginLabel("").None?;
      ss', evs' := Extended(host, ss', evs', OtherWork(""));
    }
  }

  lemma {:induction false} NothingInReach(host: string, jobs: seq<NodeJob>, job: nat)
    requires |jobs| > SCANNED && forall id :: |jobs| - SCANNED <= id < |jobs| ==> jobs[id].text == ""
    ensures Answers(jobs, LabelOf(host, job), None)
  {
    LabelRoundTrip(host, job);
    assert ParseOriginLabel("").None?;
  }

  lemma {:induction false} CopyIsBuried(host: string, job: nat) returns (ss: seq<Link>, evs: seq<Event>)
    ensures Run(host, ss, evs) && evs == [Send(1, job), Look(1, None), Accept(1)] + OtherJobs(SCANNED)
    ensures ss[|evs|].receivers == map[] && |ss[|evs|].jobs| == SCANNED + 1
    ensures ss[|evs|].jobs[0] == NodeJob(LabelOf(host, job), true)
    ensures Answers(ss[|evs|].jobs, LabelOf(host, job), None)
  {
    ss, evs := SentAgain(host, Begun(), [], job, Look(1, None));
    ghost var jobs := ss[|evs|].jobs;
    ss, evs := NodeIsBusy(host, ss, evs, SCANNED);
    assert ss[|evs|].jobs[..1] == jobs;
    NothingInReach(host, ss[|evs|].jobs, job);
  }

  /** The first copy is no longer among the newest jobs when the second receiver looks. */
  lemma {:induction false} CopyOutOfReachIsDuplicated(host: string, job: nat)
      returns (ss: seq<Link>, evs: seq<Event>)
    ensures Run(host, ss, evs) && EverTwice(host, ss, job)
    ensures var once := [Send(1, job), Look(1, None), Accept(1)]; evs == once + OtherJobs(SCANNED) + once
  {
    ss, evs := CopyIsBuried(host, job);
    ss, evs := SentAgain(host, ss, evs, job, Look(1, None));
    TwoCopies(ss[|evs|].jobs, 0, SCANNED + 1, LabelOf(host, job));
  }

  // ---- here and there ----------------------------------------------------

  /** The job runs on the sender's machine while the node has a live copy of it. */
  ghost predicate HereAndThere(host: string, s: Link, job: nat) {
    job in s.here && !NoCopy(s.jobs, LabelOf(host, job))
  }

  /** This event starts the job here beside a live copy on the node, or creates one there beside it. */
  ghost predicate Doubles(host: string, s: Link, ev: Event, job: nat) {
    || (ev == StartHere(job) && !NoCopy(s.jobs, LabelOf(host, job)))
    || (ev.Accept? && ev.p in s.receivers && s.receivers[ev.p] == Looked(job, None) && job in s.here)
  }

  lemma {:induction false} NoCopyStays(host: string, s: Link, ev: Event, s': Link, job: nat)
    requires Steps(host, s, ev, s') && NoCopy(s.jobs, LabelOf(host, job))
    requires !(ev.Accept? && s.receivers[ev.p] == Looked(job, None))
    ensures NoCopy(s'.jobs, LabelOf(host, job))
  {
    match ev
    case Accept(p) =>
      if s.receivers[p].found.None? && LabelOf(host, s.receivers[p].job) == LabelOf(host, job) {
        LabelsAreUnique(host, s.receivers[p].job, host, job);
      }
      UnrelatedWork(s.jobs, s'.jobs, LabelOf(host, job));
    case OtherWork(_) =>
      LabelRoundTrip(host, job);
      UnrelatedWork(s.jobs, s'.jobs, LabelOf(host, job));
    case _ => UnrelatedWork(s.jobs, s'.jobs, LabelOf(host, job));
  }

  lemma {:induction false} CreatedCopyIsLive(jobs: seq<NodeJob>, text: string)
    ensures !NoCopy(jobs + [NodeJob(text, true)], text)
  {
    assert LiveCopy(jobs + [NodeJob(text, true)], |jobs|, text);
  }

  lemma {:induction false} StepDoubles(host: string, s: Link, ev: Event, s': Link, job: nat)
    requires Steps(host, s, ev, s')
    ensures Doubles(host, s, ev, job) ==> HereAndThere(host, s', job)
    ensures HereAndThere(host, s', job) ==> HereAndThere(host, s, job) || Doubles(host, s, ev, job)
  {
    if ev.Accept? && s.receivers[ev.p] == Looked(job, None) {
      CreatedCopyIsLive(s.jobs, LabelOf(host, job));
    } else if NoCopy(s.jobs, LabelOf(host, job)) {
      NoCopyStays(host, s, ev, s', job);
    }
  }

  ghost predicate EverHereAndThere(host: string, ss: seq<Link>, job: nat) {
    exists k :: 0 <= k < |ss| && HereAndThere(host, ss[k], job)
  }

  ghost predicate EverDoubles(host: string, ss: seq<Link>, evs: seq<Event>, k: nat, job: nat)
    requires |ss| == |evs| + 1 && k <= |evs|
  {
    exists i :: 0 <= i < k && Doubles(host, ss[i], evs[i], job)
  }

  lemma {:induction false} DoubledBefore(host: string, ss: seq<Link>, evs: seq<Event>, k: nat, job: nat)
    requires Run(host, ss, evs) && k <= |evs| && HereAndThere(host, ss[k], job)
    ensures EverDoubles(host, ss, evs, k, job)
  {
    assert k > 0;
    assert Steps(host, ss[k - 1], evs[k - 1], ss[k - 1 + 1]);
    StepDoubles(host, ss[k - 1], evs[k - 1], ss[k], job);
    if !Doubles(host, ss[k - 1], evs[k - 1], job) {
      DoubledBefore(host, ss, evs, k - 1, job);
      var i :| 0 <= i < k - 1 && Doubles(host, ss[i], evs[i], job);
      assert 0 <= i < k && Doubles(host, ss[i], evs[i], job);
    }
  }

  /** A job ever runs here and on the node at once exactly when it is started here while the node has a live copy,
      or a receiver creates one while it runs here. */
  lemma {:induction false} HereAndThereExactlyWhenDoubled(host: string, ss: seq<Link>, evs: seq<Event>, job: nat)
    requires Run(host, ss, evs)
    ensures EverHereAndThere(host, ss, job) <==> EverDoubles(host, ss, evs, |evs|, job)
  {
    if EverHereAndThere(host, ss, job) {
      var k :| 0 <= k < |ss| && HereAndThere(host, ss[k], job);
      DoubledBefore(host, ss, evs, k, job);
      var i :| 0 <= i < k && Doubles(host, ss[i], evs[i], job);
      assert 0 <= i < |evs| && Doubles(host, ss[i], evs[i], job);
    }
    if EverDoubles(host, ss, evs, |evs|, job) {
      var k :| 0 <= k < |evs| && Doubles(host, ss[k], evs[k], job);
      assert Steps(host, ss[k], evs[k], ss[k + 1]);
      StepDoubles(host, ss[k], evs[k], ss[k + 1], job);
    }
  }

  /** The reply is lost, and the sender, for which the placement has failed, starts the job itself. */
  lemma {:induction false} LostReplyDoubles(host: string, job: nat) returns (ss: seq<Link>, evs: seq<Event>)
    ensures Run(host, ss, evs) && EverHereAndThere(host, ss, job)
    ensures evs == [Send(1, job), Look(1, None), Accept(1), LoseReply(Reply(job, 0)), StartHere(job)]
  {
    ss, evs := Extended(host, Begun(), [], Send(1, job));
    ss, evs := Extended(host, ss, evs, Look(1, None));
    ss, evs := Extended(host, ss, evs, Accept(1));
    ss, evs := Extended(host, ss, evs, LoseReply(Reply(job, 0)));
    ss, evs := Extended(host, ss, evs, StartHere(job));
    CreatedCopyIsLive([], LabelOf(host, job));
    assert HereAndThere(host, ss[|evs|], job);
  }
}

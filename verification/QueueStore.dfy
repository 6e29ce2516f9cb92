/** What the dispatcher stores: one queue per stage and the dead-letter queue.
    BullMQ appears only through the few operations the code relies on. */
module QueueStore {
  import opened Wrappers
  import opened QueueIds

  datatype JobState = Waiting | Active | Completed | Failed

  /** One POST to the stage endpoint: the attempt number sent, and whether it failed. */
  datatype Call = Call(attempt: nat, failed: bool)

  datatype Job = Job(data: Message, delay: int, priority: int, state: JobState, attemptsMade: nat, calls: seq<Call>)

  /** `order` is the order of arrival. */
  datatype Queue = Queue(jobs: map<string, Job>, order: seq<string>)

  const EMPTY := Queue(map[], [])

  type Queues = qs: map<Stage, Queue> | forall s: Stage :: s in qs
    witness map s: Stage | true :: EMPTY

  /** What deadLetter writes. A foreign entry may lack a known stage or a message. */
  datatype DlqEntry = DlqEntry(stage: Option<Stage>, message: Option<Message>, attemptsMade: nat, originalId: string)

  /** BullMQ's add: an id that is still retained makes it a no-op. */
  function Add(q: Queue, p: Post): Queue {
    if p.id in q.jobs then q else Queue(q.jobs[p.id := p.job], q.order + [p.id])
  }

  function PriorityRank(p: Option<string>): int {
    match p.GetOr("normal")
    case "urgent" => 1
    case "high" => 2
    case "normal" => 3
    case "low" => 4
    case _ => 3
  }

  /** BullMQ takes the smaller rank first; a priority that is absent or unknown is normal. */
  lemma UrgentComesFirst(p: string)
    ensures PriorityRank(Some("urgent")) < PriorityRank(Some("high")) < PriorityRank(Some("normal")) < PriorityRank(Some("low"))
    ensures PriorityRank(None) == PriorityRank(Some("normal"))
    ensures p !in {"urgent", "high", "low"} ==> PriorityRank(Some(p)) == PriorityRank(Some("normal"))
  {
  }

  function NewJob(r: Request): Job {
    Job(r.message, r.delayMs.GetOr(0), PriorityRank(r.message.priority), Waiting, 0, [])
  }

  /** A job carries its whole request: the message, and the delay with none meaning zero. */
  lemma JobCarriesTheRequest(r: Request, r': Request)
    ensures NewJob(r) == NewJob(r') <==> r.message == r'.message && r.delayMs.GetOr(0) == r'.delayMs.GetOr(0)
    ensures NewJob(r).state == Waiting && NewJob(r).attemptsMade == 0 && NewJob(r).calls == []
  {
  }

  /** What is handed to BullMQ: a job under the id chosen for it. */
  datatype Post = Post(id: string, job: Job) {
    function Stage(): Stage { job.data.stage }
  }

  function PostOf(r: Request): Post {
    Post(EnqueueId(r.message), NewJob(r))
  }

  function Posts(rs: seq<Request>): (ps: seq<Post>)
    ensures |ps| == |rs| && forall i :: 0 <= i < |rs| ==> ps[i] == PostOf(rs[i])
  {
    seq(|rs|, i requires 0 <= i < |rs| => PostOf(rs[i]))
  }

  predicate AllValid(rs: seq<Request>) {
    forall r :: r in rs ==> ValidRequest(r)
  }

  /** addBulk on one queue: in order, one after the other. */
  function AddAll(q: Queue, ps: seq<Post>): Queue
    decreases ps
  {
    if ps == [] then q else AddAll(Add(q, ps[0]), ps[1..])
  }

  function EnqueueOne(qs: Queues, p: Post): Queues {
    qs[p.Stage() := Add(qs[p.Stage()], p)]
  }

  /** The reference for a batch: its messages sent to /enqueue one by one, in order. */
  function EnqueueAll(qs: Queues, ps: seq<Post>): Queues
    decreases ps
  {
    if ps == [] then qs else EnqueueAll(EnqueueOne(qs, ps[0]), ps[1..])
  }

  function Group(ps: seq<Post>, s: Stage): seq<Post> {
    if ps == [] then []
    else if ps[0].Stage() == s then [ps[0]] + Group(ps[1..], s)
    else Group(ps[1..], s)
  }

  /** How one group's addBulk ends. A lost reply throws after the jobs were added. */
  datatype Fault = Fine | NotApplied | ReplyLost

  /** The queues after a bulk request whose groups met the given faults. */
  function AfterBulk(qs: Queues, ps: seq<Post>, fault: Stage -> Fault): Queues {
    map s: Stage | s in qs :: if fault(s).NotApplied? then qs[s] else AddAll(qs[s], Group(ps, s))
  }

  /** Grouping changes nothing: each queue ends as if the messages had come one by one. */
  lemma {:induction false} GroupingKeepsOrder(qs: Queues, ps: seq<Post>, s: Stage)
    ensures EnqueueAll(qs, ps)[s] == AddAll(qs[s], Group(ps, s))
    decreases ps
  {
    if ps != [] {
      GroupingKeepsOrder(EnqueueOne(qs, ps[0]), ps[1..], s);
      assert ps[0].Stage() == s ==> Group(ps, s)[1..] == Group(ps[1..], s);
    }
  }

  lemma {:induction false} BulkIsOneByOne(qs: Queues, ps: seq<Post>, fault: Stage -> Fault)
    requires forall s :: !fault(s).NotApplied?
    ensures AfterBulk(qs, ps, fault) == EnqueueAll(qs, ps)
  {
    forall s: Stage
      ensures AfterBulk(qs, ps, fault)[s] == EnqueueAll(qs, ps)[s]
    {
      GroupingKeepsOrder(qs, ps, s);
    }
  }

  /** The messages whose group took effect. */
  function Applied(ps: seq<Post>, fault: Stage -> Fault): seq<Post> {
    if ps == [] then []
    else if fault(ps[0].Stage()).NotApplied? then Applied(ps[1..], fault)
    else [ps[0]] + Applied(ps[1..], fault)
  }

  lemma {:induction false} GroupOfApplied(ps: seq<Post>, fault: Stage -> Fault, s: Stage)
    ensures Group(Applied(ps, fault), s) == if fault(s).NotApplied? then [] else Group(ps, s)
  {
    if ps != [] {
      GroupOfApplied(ps[1..], fault, s);
      if !fault(ps[0].Stage()).NotApplied? {
        assert Applied(ps, fault)[1..] == Applied(ps[1..], fault);
      }
    }
  }

  /** Even a batch that failed half way is some messages enqueued one by one. */
  lemma {:induction false} PartialBulkIsOneByOne(qs: Queues, ps: seq<Post>, fault: Stage -> Fault)
    ensures forall s: Stage :: AfterBulk(qs, ps, fault)[s] == EnqueueAll(qs, Applied(ps, fault))[s]
  {
    forall s: Stage
      ensures AfterBulk(qs, ps, fault)[s] == EnqueueAll(qs, Applied(ps, fault))[s]
    {
      GroupingKeepsOrder(qs, Applied(ps, fault), s);
      GroupOfApplied(ps, fault, s);
    }
  }

  /** While the ids are retained, in whatever state, sending a group again changes nothing. */
  lemma {:induction false} ResubmitIsNoOp(q: Queue, ps: seq<Post>)
    requires forall p :: p in ps ==> p.id in q.jobs
    ensures AddAll(q, ps) == q
    decreases ps
  {
    if ps != [] {
      assert ps[0] in ps;
      ResubmitIsNoOp(q, ps[1..]);
    }
  }

  /** Adding loses and changes no job, and every id sent is there afterwards. */
  lemma {:induction false} AddAllRetains(q: Queue, ps: seq<Post>)
    ensures forall id :: id in q.jobs ==> id in AddAll(q, ps).jobs && AddAll(q, ps).jobs[id] == q.jobs[id]
    ensures forall p :: p in ps ==> p.id in AddAll(q, ps).jobs
    decreases ps
  {
    if ps != [] {
      AddAllRetains(Add(q, ps[0]), ps[1..]);
      assert ps == [ps[0]] + ps[1..];
    }
  }

  /** The same ids in the same order, whatever has become of the jobs. */
  predicate SameIds(q: Queue, r: Queue) {
    q.jobs.Keys == r.jobs.Keys && q.order == r.order
  }

  /** Adding a group looks at ids only. */
  lemma {:induction false} AddAllByIds(q: Queue, r: Queue, ps: seq<Post>)
    requires SameIds(q, r)
    ensures SameIds(AddAll(q, ps), AddAll(r, ps))
    ensures forall id :: id in AddAll(q, ps).jobs && id !in q.jobs ==> AddAll(q, ps).jobs[id] == AddAll(r, ps).jobs[id]
    decreases ps
  {
    if ps != [] {
      AddAllByIds(Add(q, ps[0]), Add(r, ps[0]), ps[1..]);
      AddAllRetains(Add(q, ps[0]), ps[1..]);
      AddAllRetains(Add(r, ps[0]), ps[1..]);
    }
  }

  /** What a retry of a batch leaves: the ids of one clean batch in its order, every job that
      was already there as it was, and every other as the clean batch adds it. */
  ghost predicate Converged(clean: Queue, before: Queue, after: Queue) {
    && SameIds(clean, after)
    && forall id :: id in after.jobs ==> after.jobs[id] == if id in before.jobs then before.jobs[id] else clean.jobs[id]
  }

  lemma {:induction false} RetriedGroup(q: Queue, worked: Queue, ps: seq<Post>, added: bool)
    requires SameIds(if added then AddAll(q, ps) else q, worked)
    ensures Converged(AddAll(q, ps), worked, AddAll(worked, ps))
  {
    AddAllRetains(worked, ps);
    AddAllRetains(q, ps);
    if added {
      ResubmitIsNoOp(worked, ps);
    } else {
      AddAllByIds(q, worked, ps);
    }
  }

  /** Retrying a batch of which any subset of groups was already added, or resubmitting
      one that succeeded, converges to a single clean batch, whatever workers have done to the
      jobs in between as long as the ids are kept; with nothing done, it is that batch. */
  lemma {:induction false} RetriedBulkConverges(qs: Queues, worked: Queues, ps: seq<Post>, first: Stage -> Fault, second: Stage -> Fault)
    requires forall s: Stage :: SameIds(AfterBulk(qs, ps, first)[s], worked[s])
    requires forall s :: !second(s).NotApplied?
    ensures forall s: Stage :: Converged(EnqueueAll(qs, ps)[s], worked[s], AfterBulk(worked, ps, second)[s])
    ensures worked == AfterBulk(qs, ps, first) ==> AfterBulk(worked, ps, second) == EnqueueAll(qs, ps)
  {
    forall s: Stage
      ensures Converged(EnqueueAll(qs, ps)[s], worked[s], AfterBulk(worked, ps, second)[s])
      ensures worked == AfterBulk(qs, ps, first) ==> AfterBulk(worked, ps, second)[s] == EnqueueAll(qs, ps)[s]
    {
      GroupingKeepsOrder(qs, ps, s);
      RetriedGroup(qs[s], worked[s], Group(ps, s), !first(s).NotApplied?);
      AddAllRetains(qs[s], Group(ps, s));
      ResubmitIsNoOp(AddAll(qs[s], Group(ps, s)), Group(ps, s));
    }
    if worked == AfterBulk(qs, ps, first) { SameQueues(AfterBulk(worked, ps, second), EnqueueAll(qs, ps)); }
  }

  function PostIds(ps: seq<Post>): (ids: seq<string>)
    ensures |ids| == |ps| && forall i :: 0 <= i < |ps| ==> ids[i] == ps[i].id
  {
    seq(|ps|, i requires 0 <= i < |ps| => ps[i].id)
  }

  /** Ids that are not there yet, each once. */
  ghost predicate NewIds(q: Queue, ps: seq<Post>)
    decreases ps
  {
    ps == [] || (ps[0].id !in q.jobs && NewIds(Add(q, ps[0]), ps[1..]))
  }

  /** A group of new ids arrives behind what is there, in its own order, each post with its
      own job. */
  lemma {:induction false} NewGroupArrivesInOrder(q: Queue, ps: seq<Post>)
    requires NewIds(q, ps)
    ensures AddAll(q, ps).order == q.order + PostIds(ps)
    ensures forall p :: p in ps ==> p.id in AddAll(q, ps).jobs && AddAll(q, ps).jobs[p.id] == p.job
    decreases ps
  {
    if ps != [] {
      var r := Add(q, ps[0]);
      assert r.order == q.order + [ps[0].id] && ps[0].id in r.jobs && r.jobs[ps[0].id] == ps[0].job;
      NewGroupArrivesInOrder(r, ps[1..]);
      AddAllRetains(r, ps[1..]);
      hide Add;
      assert PostIds(ps) == [ps[0].id] + PostIds(ps[1..]);
      assert ps == [ps[0]] + ps[1..];
    }
  }

  /** Such are ids that differ from each other and from those that are there. */
  lemma {:induction false} DifferentIdsAreNew(q: Queue, ps: seq<Post>)
    requires forall i, j :: 0 <= i < j < |ps| ==> ps[i].id != ps[j].id
    requires forall i :: 0 <= i < |ps| ==> ps[i].id !in q.jobs
    ensures NewIds(q, ps)
    decreases ps
  {
    if ps != [] { DifferentIdsAreNew(Add(q, ps[0]), ps[1..]); }
  }

  lemma SameQueues(a: Queues, b: Queues)
    requires forall s: Stage :: a[s] == b[s]
    ensures a == b
  {
  }

  // ------------------------------------------------------------------ worker side

  /** A worker takes a waiting job and is about to POST it with the next attempt number. */
  function TakeJob(q: Queue, id: string): Queue
    requires id in q.jobs
  {
    var j := q.jobs[id];
    q.(jobs := q.jobs[id := j.(state := Active, calls := j.calls + [Call(j.attemptsMade + 1, false)])])
  }

  datatype StageResult = StageResult(shouldRetry: bool, retryDelayMs: int)

  /** The reply as the HTTP client sees it. `body` is None when it does not parse. */
  datatype Response = Unreachable | Answer(statusCode: int, body: Option<StageResult>)

  datatype DispatchResult = Returned(result: StageResult) | TransportError | RejectedError

  function Dispatch(response: Response): DispatchResult {
    match response
    case Unreachable => TransportError
    case Answer(code, body) =>
      if code >= 500 then TransportError
      else if code >= 400 then RejectedError
      else if body.None? then TransportError
      else Returned(body.value)
  }

  /** Whether the processor throws, which is all BullMQ gets to see. */
  predicate Throws(response: Response) {
    match Dispatch(response)
    case Returned(result) => result.shouldRetry
    case _ => true
  }

  /** A refused message burns its attempts exactly as an unreachable service does:
      what a reply does to the job depends on this one bit. */
  lemma OnlyACleanReplySettles(response: Response)
    ensures !Throws(response) <==>
            response.Answer? && response.statusCode < 400 && response.body.Some? && !response.body.value.shouldRetry
  {
  }

  /** BullMQ's bookkeeping when the processor returns or throws. */
  function SettleJob(q: Queue, id: string, threw: bool, maxAttempts: nat): Queue
    requires id in q.jobs && q.jobs[id].calls != []
  {
    var j := q.jobs[id];
    var settled :=
      if !threw then j.(state := Completed)
      else
        var made := j.attemptsMade + 1;
        var last := |j.calls| - 1;
        j.(attemptsMade := made,
           state := if made < maxAttempts then Waiting else Failed,
           calls := j.calls[last := j.calls[last].(failed := true)]);
    q.(jobs := q.jobs[id := settled])
  }

  /** One job moves on, in its state and its attempts alone; nothing else in the queue does. */
  predicate OnlyThatJobMoves(q: Queue, r: Queue, id: string)
    requires id in q.jobs
  {
    && r.order == q.order && r.jobs.Keys == q.jobs.Keys
    && (forall i :: i in q.jobs && i != id ==> r.jobs[i] == q.jobs[i])
    && r.jobs[id].data == q.jobs[id].data && r.jobs[id].delay == q.jobs[id].delay && r.jobs[id].priority == q.jobs[id].priority
  }

  lemma WorkMovesOneJob(q: Queue, id: string, threw: bool, maxAttempts: nat)
    requires id in q.jobs
    ensures OnlyThatJobMoves(q, TakeJob(q, id), id)
    ensures q.jobs[id].calls != [] ==> OnlyThatJobMoves(q, SettleJob(q, id, threw, maxAttempts), id)
  {
  }

  /** The `failed` handler: the entry it starts to write, if the job is exhausted. */
  function ToDeadLetter(stage: Stage, id: string, job: Job, maxAttempts: nat): Option<DlqEntry> {
    if job.attemptsMade >= maxAttempts
    then Some(DlqEntry(Some(stage), Some(job.data), job.attemptsMade, id))
    else None
  }

  function EntryKey(e: DlqEntry): string
    requires e.stage.Some? && e.message.Some?
  {
    DlqId(e.stage.value, e.message.value.jobId, e.attemptsMade)
  }

  /** The DLQ add: like any other add, a no-op when its id is present. */
  function WriteEntry(dlq: map<string, DlqEntry>, e: DlqEntry): map<string, DlqEntry>
    requires e.stage.Some? && e.message.Some?
  {
    if EntryKey(e) in dlq then dlq else dlq[EntryKey(e) := e]
  }

  predicate Replayable(e: DlqEntry) {
    e.stage.Some? && e.message.Some? && e.message.value.jobId != ""
  }

  /** What a replay adds: attempt 1 again, no delay, default priority. */
  function ReplayPost(e: DlqEntry, now: nat): Post
    requires Replayable(e)
  {
    var m := e.message.value;
    Post(ReplayId(m.jobId, e.stage.value, now), Job(m.(attempt := Some(1)), 0, 0, Waiting, 0, []))
  }

  function ReplayAdd(qs: Queues, e: DlqEntry, now: nat): Queues
    requires Replayable(e)
  {
    qs[e.stage.value := Add(qs[e.stage.value], ReplayPost(e, now))]
  }
}

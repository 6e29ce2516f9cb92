/** Stage messages and the ids the dispatcher builds from them (queue/src). */
module QueueIds {
  import opened Wrappers
  import opened Text

  datatype Stage =
    | Validation | Parser | Docpipeline | Extraction | Enrichment
    | Classification | Chunking | AiExtraction | Embedding | Indexing

  function StageName(s: Stage): (name: string)
    ensures '~' !in name && '-' !in name
  {
    match s
    case Validation => "validation"
    case Parser => "parser"
    case Docpipeline => "docpipeline"
    case Extraction => "extraction"
    case Enrichment => "enrichment"
    case Classification => "classification"
    case Chunking => "chunking"
    case AiExtraction => "ai_extraction"
    case Embedding => "embedding"
    case Indexing => "indexing"
  }

  lemma StageNameInjective(s: Stage, t: Stage)
    requires StageName(s) == StageName(t)
    ensures s == t
  {
    // Length or one of the first two letters tells any two stages apart.
    assert |StageName(s)| == |StageName(t)| && StageName(s)[0] == StageName(t)[0] && StageName(s)[1] == StageName(t)[1];
  }

  /** `payload` stands for the fields that travel untouched: contract_id, project_id,
      trace, continue_pipeline and options. */
  datatype Message = Message(
    jobId: string, stage: Stage, attempt: Option<int>, priority: Option<string>,
    dispatchId: Option<string>, payload: string)

  /** A request body: a message and the delay that is split off before it is stored. */
  datatype Request = Request(message: Message, delayMs: Option<int>)

  predicate IsHex(c: char) {
    '0' <= c <= '9' || 'a' <= c <= 'f' || 'A' <= c <= 'F'
  }

  /** The text form of section 4 of RFC 9562: 8-4-4-4-12 hexadecimal digits. */
  predicate IsUuid(s: string) {
    |s| == 36 &&
    forall i :: 0 <= i < 36 ==> if i == 8 || i == 13 || i == 18 || i == 23 then s[i] == '-' else IsHex(s[i])
  }

  predicate AllHex(s: string) {
    forall i :: 0 <= i < |s| ==> IsHex(s[i])
  }

  /** Five groups of hexadecimal digits with hyphens between them, and nothing else. */
  lemma UuidIff(s: string)
    ensures IsUuid(s) <==> exists a, b, c, d, e ::
              && |a| == 8 && |b| == 4 && |c| == 4 && |d| == 4 && |e| == 12
              && AllHex(a) && AllHex(b) && AllHex(c) && AllHex(d) && AllHex(e)
              && s == a + "-" + b + "-" + c + "-" + d + "-" + e
  {
    hide IsHex;
    if IsUuid(s) {
      var a, b, c, d, e := s[..8], s[9..13], s[14..18], s[19..23], s[24..];
      assert AllHex(a) && AllHex(b) && AllHex(c) && AllHex(d) && AllHex(e);
      assert s == a + "-" + b + "-" + c + "-" + d + "-" + e;
    }
  }

  /** enqueueSchema */
  predicate ValidRequest(r: Request) {
    && IsUuid(r.message.jobId)
    && (r.message.attempt.Some? ==> 1 <= r.message.attempt.value <= 100)
    && (r.message.dispatchId.Some? ==> 1 <= |r.message.dispatchId.value| <= 64)
    && (r.delayMs.Some? ==> 0 <= r.delayMs.value <= 86_400_000)
  }

  function AttemptOf(m: Message): int {
    m.attempt.GetOr(1)
  }

  function DispatchOf(m: Message): string {
    m.dispatchId.GetOr("legacy")
  }

  function EnqueueId(m: Message): string
  {
    m.jobId + "~" + StageName(m.stage) + "~" + IntText(AttemptOf(m)) + "~" + DispatchOf(m)
  }

  function ReplayId(jobId: string, stage: Stage, now: nat): string {
    jobId + "~" + StageName(stage) + "~" + "replay" + "~" + NatText(now)
  }

  function DlqId(stage: Stage, jobId: string, attemptsMade: nat): string {
    "dlq-" + StageName(stage) + "-" + jobId + "-" + NatText(attemptsMade)
  }

  /** Any four-part id has one reading when only the last part may hold the separator. */
  lemma FourParts(a: string, b: string, c: string, d: string, a': string, b': string, c': string, d': string)
    requires '~' !in a && '~' !in b && '~' !in c && '~' !in a' && '~' !in b' && '~' !in c'
    requires a + "~" + b + "~" + c + "~" + d == a' + "~" + b' + "~" + c' + "~" + d'
    ensures a == a' && b == b' && c == c' && d == d'
  {
    assert a + "~" + b + "~" + c + "~" + d == a + "~" + (b + "~" + (c + "~" + d));
    assert a' + "~" + b' + "~" + c' + "~" + d' == a' + "~" + (b' + "~" + (c' + "~" + d'));
    CutFirst(a, b + "~" + (c + "~" + d), a', b' + "~" + (c' + "~" + d'), '~');
    CutFirst(b, c + "~" + d, b', c' + "~" + d', '~');
    CutFirst(c, d, c', d', '~');
  }

  /** Two accepted messages share a queue id exactly when all four parts agree,
      whatever characters the dispatch id holds. */
  lemma EnqueueIdsAgree(m: Message, n: Message)
    requires IsUuid(m.jobId) && IsUuid(n.jobId)
    ensures EnqueueId(m) == EnqueueId(n) <==>
            && m.jobId == n.jobId && m.stage == n.stage && m.attempt.GetOr(1) == n.attempt.GetOr(1)
            && m.dispatchId.GetOr("legacy") == n.dispatchId.GetOr("legacy")
  {
    if EnqueueId(m) == EnqueueId(n) {
      FourParts(m.jobId, StageName(m.stage), IntText(AttemptOf(m)), DispatchOf(m),
                n.jobId, StageName(n.stage), IntText(AttemptOf(n)), DispatchOf(n));
      StageNameInjective(m.stage, n.stage);
      IntTextInjective(AttemptOf(m), AttemptOf(n));
    }
  }

  lemma NotDigits(n: int)
    ensures IntText(n) != "replay"
  {
    assert "replay"[0] == 'r';
    assert IntText(n)[0] == '-' || '0' <= IntText(n)[0] <= '9';
  }

  /** A replay never takes an id that an enqueue can produce, and two replays share
      an id exactly when pair and millisecond agree. */
  lemma ReplayIdsApart(m: Message, jobId: string, stage: Stage, now: nat, jobId': string, stage': Stage, now': nat)
    requires IsUuid(m.jobId) && IsUuid(jobId) && IsUuid(jobId')
    ensures ReplayId(jobId, stage, now) != EnqueueId(m)
    ensures ReplayId(jobId, stage, now) == ReplayId(jobId', stage', now') <==>
            jobId == jobId' && stage == stage' && now == now'
  {
    if ReplayId(jobId, stage, now) == EnqueueId(m) {
      FourParts(jobId, StageName(stage), "replay", NatText(now),
                m.jobId, StageName(m.stage), IntText(AttemptOf(m)), DispatchOf(m));
      NotDigits(AttemptOf(m));
    }
    if ReplayId(jobId, stage, now) == ReplayId(jobId', stage', now') {
      FourParts(jobId, StageName(stage), "replay", NatText(now), jobId', StageName(stage'), "replay", NatText(now'));
      StageNameInjective(stage, stage');
      NatTextInjective(now, now');
    }
  }

  /** A dead-letter id names the stage, the job id (any text) and the attempt count,
      and nothing else: the dispatch id is not in it. */
  lemma DlqIdsAgree(s: Stage, j: string, n: nat, s': Stage, j': string, n': nat)
    ensures DlqId(s, j, n) == DlqId(s', j', n') <==> s == s' && j == j' && n == n'
  {
    if DlqId(s, j, n) == DlqId(s', j', n') {
      DlqIdParts(StageName(s), j, NatText(n), StageName(s'), j', NatText(n'));
      StageNameInjective(s, s');
      NatTextInjective(n, n');
    }
  }

  lemma DlqIdParts(a: string, j: string, n: string, a': string, j': string, n': string)
    requires '-' !in a && '-' !in a' && '-' !in n && '-' !in n'
    requires "dlq-" + a + "-" + j + "-" + n == "dlq-" + a' + "-" + j' + "-" + n'
    ensures a == a' && j == j' && n == n'
  {
    CutLast("dlq-" + a + "-" + j, n, "dlq-" + a' + "-" + j', n', '-');
    var left, right := "dlq-" + a + "-" + j, "dlq-" + a' + "-" + j';
    assert a + "-" + j == left[4..] && a' + "-" + j' == right[4..];
    CutFirst(a, j, a', j', '-');
  }
}

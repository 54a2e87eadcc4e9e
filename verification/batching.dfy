/** `rewrite_captions_in_batches`: the caption list is cut greedily into
    contiguous batches under a token budget; each batch is rewritten by the
    language model and written back at the batch's first index.

    The tokenizer, the chat-completion call and `json.loads` are parameters.
    The chat model is an oracle indexed by the number of the call, since it
    samples at temperature 1: two calls on the same batch may answer
    differently. A call may also fail, when the client raises or the reply
    message has no content; the run then ends with the batches before it
    already written.

    A batch that comes out empty (one caption alone does not fit the budget)
    leaves `i` where it is. From then on every pass of the outer loop sends
    an empty batch and writes the reply at that caption, and the loop ends
    only when such a pass raises. `RunFrom` stops at the first empty batch
    with the outcome `Stuck`; `StuckPasses` carries the loop on for any
    number of further passes. */
module Batching {
  import opened Outcomes
  import opened JsonValues
  import opened CaptionText
  import opened CaptionFile

  /** TOKEN_LIMIT of the chat model. */
  const TokenLimit: int := 16385

  /** `max_tokens_for_completion = TOKEN_LIMIT // 2`. */
  const CompletionLimit: nat := 8192

  /** INPUT_TOKEN_LIMIT = (TOKEN_LIMIT - ctx) // 2. Dafny's `/` with a
      positive divisor rounds down like Python's `//`, also for a context
      longer than the limit. */
  function InputLimit(ctx: nat): int {
    (TokenLimit - ctx) / 2
  }

  /** The admission test of the inner loop: a caption costing `c` joins a
      batch whose captions cost `running` so far. */
  predicate Admits(ctx: nat, running: int, c: nat) {
    running + c + ctx + 1000 < InputLimit(ctx)
  }

  /** Total cost of a run of captions. */
  function Sum(costs: seq<nat>): nat
    decreases |costs|
  {
    if |costs| == 0 then 0 else Sum(costs[..|costs| - 1]) + costs[|costs| - 1]
  }

  lemma {:induction false} SumFront(costs: seq<nat>)
    requires |costs| > 0
    ensures Sum(costs) == costs[0] + Sum(costs[1..])
    decreases |costs|
  {
    if |costs| > 1 {
      var init := costs[..|costs| - 1];
      SumFront(init);
      assert init[1..] == costs[1..][..|costs[1..]| - 1];
    }
  }

  /** `Sum(costs[i..k])` with its first element taken off. */
  lemma SumSlice(costs: seq<nat>, i: nat, k: nat)
    requires i <= k <= |costs|
    ensures Sum(costs[i..k]) == if i == k then 0 else costs[i] + Sum(costs[i + 1..k])
  {
    if i < k {
      SumFront(costs[i..k]);
      assert costs[i..k][1..] == costs[i + 1..k];
    } else {
      assert costs[i..k] == [];
    }
  }

  /** The token cost of every caption. */
  function Costs(captions: seq<string>, cost: string -> nat): seq<nat> {
    seq(|captions|, k requires 0 <= k < |captions| => cost(captions[k]))
  }

  /** Where the inner loop stops when it starts at `i` with `running` tokens
      already in the batch: it takes captions while the admission test
      passes. */
  function GreedyEnd(costs: seq<nat>, ctx: nat, i: nat, running: int): (e: nat)
    requires i <= |costs|
    ensures i <= e <= |costs|
    decreases |costs| - i
  {
    if i == |costs| || !Admits(ctx, running, costs[i]) then i
    else GreedyEnd(costs, ctx, i + 1, running + costs[i])
  }

  /** The caption at `k` passes the admission test against the captions
      `i .. k` taken before it on top of `running`. */
  predicate Taken(costs: seq<nat>, ctx: nat, i: nat, running: int, k: nat)
    requires i <= k < |costs|
  {
    Admits(ctx, running + Sum(costs[i..k]), costs[k])
  }

  /** The greedy cut, stated without its loop: every caption before the end
      passed the admission test against the captions taken before it, and
      the caption at the end (if any) failed it. */
  lemma {:induction false} GreedyEndSpec(costs: seq<nat>, ctx: nat, i: nat, running: int)
    requires i <= |costs|
    ensures var e := GreedyEnd(costs, ctx, i, running);
            && (forall k :: i <= k < e ==> Taken(costs, ctx, i, running, k))
            && (e < |costs| ==> !Taken(costs, ctx, i, running, e))
    decreases |costs| - i
  {
    if i < |costs| && Admits(ctx, running, costs[i]) {
      GreedyEndSpec(costs, ctx, i + 1, running + costs[i]);
      var e := GreedyEnd(costs, ctx, i + 1, running + costs[i]);
      assert GreedyEnd(costs, ctx, i, running) == e;
      forall k | i <= k < e ensures Taken(costs, ctx, i, running, k) {
        SumSlice(costs, i, k);
        if k > i {
          assert Taken(costs, ctx, i + 1, running + costs[i], k);
        }
      }
      if e < |costs| {
        SumSlice(costs, i, e);
        assert !Taken(costs, ctx, i + 1, running + costs[i], e);
      }
    } else {
      assert GreedyEnd(costs, ctx, i, running) == i;
      SumSlice(costs, i, i);
    }
  }

  /** Every non-empty batch stays within the input budget. */
  lemma BatchWithinBudget(costs: seq<nat>, ctx: nat, start: nat)
    requires start < |costs|
    requires GreedyEnd(costs, ctx, start, 0) > start
    ensures Sum(costs[start..GreedyEnd(costs, ctx, start, 0)]) < InputLimit(ctx) - ctx - 1000
  {
    var e := GreedyEnd(costs, ctx, start, 0);
    GreedyEndSpec(costs, ctx, start, 0);
    assert Taken(costs, ctx, start, 0, e - 1);
    assert costs[start..e][..e - 1 - start] == costs[start..e - 1];
  }

  /** Estimating caption by caption commutes with cutting out a batch. */
  lemma CostsSlice(captions: seq<string>, cost: string -> nat, i: nat, j: nat)
    requires i <= j <= |captions|
    ensures Costs(captions, cost)[i..j] == Costs(captions[i..j], cost)
  {
  }

  /** The captions the loop puts in one non-empty batch cost, by the
      tokenizer, fewer tokens than the budget the admission test leaves. */
  lemma BatchTokens(captions: seq<string>, cost: string -> nat, context: string, start: nat)
    requires start < |captions|
    requires GreedyEnd(Costs(captions, cost), cost(context), start, 0) > start
    ensures var batch := captions[start..GreedyEnd(Costs(captions, cost), cost(context), start, 0)];
            Sum(Costs(batch, cost)) < InputLimit(cost(context)) - cost(context) - 1000
  {
    var e := GreedyEnd(Costs(captions, cost), cost(context), start, 0);
    BatchWithinBudget(Costs(captions, cost), cost(context), start);
    CostsSlice(captions, cost, start, e);
  }

  /** Every caption of a batch passes the admission test on its own. */
  lemma BatchMembersFit(costs: seq<nat>, ctx: nat, start: nat)
    requires start <= |costs|
    ensures forall k :: start <= k < GreedyEnd(costs, ctx, start, 0) ==> Admits(ctx, 0, costs[k])
  {
    GreedyEndSpec(costs, ctx, start, 0);
    forall k | start <= k < GreedyEnd(costs, ctx, start, 0) ensures Admits(ctx, 0, costs[k]) {
      assert Taken(costs, ctx, start, 0, k);
    }
  }

  /** A batch of captions is empty exactly when its first caption alone
      fails the admission test. */
  lemma EmptyBatchIffTooLong(costs: seq<nat>, ctx: nat, start: nat)
    requires start < |costs|
    ensures GreedyEnd(costs, ctx, start, 0) == start <==> !Admits(ctx, 0, costs[start])
  {
    GreedyEndSpec(costs, ctx, start, 0);
    assert costs[start..start] == [];
  }

  /** Each caption passes the admission test against an empty batch. */
  predicate EachFits(costs: seq<nat>, ctx: nat) {
    forall k :: 0 <= k < |costs| ==> Admits(ctx, 0, costs[k])
  }

  /** Batches `[start, end)` that follow each other from `from` to `to`. */
  predicate Contiguous(bs: seq<(nat, nat)>, from: nat, to: nat) {
    && (|bs| == 0 ==> from == to)
    && (|bs| > 0 ==> bs[0].0 == from && bs[|bs| - 1].1 == to)
    && (forall k :: 0 <= k < |bs| - 1 ==> bs[k].1 == bs[k + 1].0)
  }

  /** The batches the greedy loop cuts `costs[from..]` into, when every
      caption fits on its own. */
  function Partition(costs: seq<nat>, ctx: nat, from: nat): (bs: seq<(nat, nat)>)
    requires from <= |costs| && EachFits(costs, ctx)
    ensures Contiguous(bs, from, |costs|)
    ensures forall k :: 0 <= k < |bs| ==>
              bs[k].0 < bs[k].1 <= |costs| && bs[k].1 == GreedyEnd(costs, ctx, bs[k].0, 0)
    decreases |costs| - from
  {
    if from == |costs| then []
    else
      EmptyBatchIffTooLong(costs, ctx, from);
      var e := GreedyEnd(costs, ctx, from, 0);
      var rest := Partition(costs, ctx, e);
      [(from, e)] + rest
  }

  /** The captions of consecutive batches, concatenated. */
  function Gather(captions: seq<string>, bs: seq<(nat, nat)>): seq<string>
    requires forall k :: 0 <= k < |bs| ==> bs[k].0 <= bs[k].1 <= |captions|
    decreases |bs|
  {
    if |bs| == 0 then [] else captions[bs[0].0..bs[0].1] + Gather(captions, bs[1..])
  }

  /** Contiguous batches hand every caption from `from` to `to` over exactly
      once, in order. */
  lemma {:induction false} GatherContiguous(captions: seq<string>, bs: seq<(nat, nat)>, from: nat, to: nat)
    requires forall k :: 0 <= k < |bs| ==> bs[k].0 <= bs[k].1 <= |captions|
    requires from <= to <= |captions|
    requires Contiguous(bs, from, to)
    ensures Gather(captions, bs) == captions[from..to]
    decreases |bs|
  {
    if |bs| > 0 {
      var mid := bs[0].1;
      if |bs| == 1 {
        assert captions[mid..to] == [];
      } else {
        assert bs[1].0 == mid;
        assert mid <= bs[|bs| - 1].1 by {
          forall k | 0 <= k < |bs| - 1 ensures bs[1..][k].0 <= bs[|bs| - 1].1 {
            ChainBound(bs[1..], k);
          }
        }
        GatherContiguous(captions, bs[1..], mid, to);
      }
      assert captions[from..to] == captions[from..mid] + captions[mid..to];
    }
  }

  lemma {:induction false} ChainBound(bs: seq<(nat, nat)>, k: nat)
    requires k < |bs|
    requires forall j :: 0 <= j < |bs| ==> bs[j].0 <= bs[j].1
    requires forall j :: 0 <= j < |bs| - 1 ==> bs[j].1 == bs[j + 1].0
    ensures bs[k].0 <= bs[|bs| - 1].1
    decreases |bs| - k
  {
    if k < |bs| - 1 {
      ChainBound(bs, k + 1);
    }
  }

  /** When every caption fits on its own, the greedy batches are non-empty,
      stay within the budget and together hand over the whole caption list
      exactly once, in order. */
  lemma PartitionCovers(captions: seq<string>, costs: seq<nat>, ctx: nat)
    requires |costs| == |captions| && EachFits(costs, ctx)
    ensures forall k :: 0 <= k < |Partition(costs, ctx, 0)| ==>
              Sum(costs[Partition(costs, ctx, 0)[k].0..Partition(costs, ctx, 0)[k].1])
                < InputLimit(ctx) - ctx - 1000
    ensures Gather(captions, Partition(costs, ctx, 0)) == captions
  {
    var bs := Partition(costs, ctx, 0);
    forall k | 0 <= k < |bs|
      ensures Sum(costs[bs[k].0..bs[k].1]) < InputLimit(ctx) - ctx - 1000
    {
      BatchWithinBudget(costs, ctx, bs[k].0);
    }
    GatherContiguous(captions, bs, 0, |captions|);
    assert captions[0..|captions|] == captions;
  }

  /** `Partition` is the only chain of non-empty batches from `from` to the
      end whose every batch ends where the admission test stops it. */
  lemma {:induction false} GreedyChainIsPartition(costs: seq<nat>, ctx: nat, bs: seq<(nat, nat)>, from: nat)
    requires from <= |costs| && EachFits(costs, ctx)
    requires Contiguous(bs, from, |costs|)
    requires forall k :: 0 <= k < |bs| ==>
               bs[k].0 < bs[k].1 && bs[k].0 <= |costs| && bs[k].1 == GreedyEnd(costs, ctx, bs[k].0, 0)
    ensures bs == Partition(costs, ctx, from)
    decreases |bs|
  {
    if |bs| > 0 {
      var e := bs[0].1;
      assert from < |costs|;
      assert bs[1..] == Partition(costs, ctx, e) by {
        if |bs| > 1 {
          assert bs[1].0 == e;
        }
        GreedyChainIsPartition(costs, ctx, bs[1..], e);
      }
      assert bs == [(from, e)] + bs[1..];
    }
  }

  /** One pass of the outer loop: the batch `[start, end)`, the offset it was
      written at, and the parsed reply. */
  datatype Round = Round(start: nat, end: nat, offset: nat, reply: Json)

  datatype RunError =
    | CallFailed                // the chat call raised, or its message content was None
    | ReplyNotParsed            // `json.loads` rejected the cleaned reply
    | WriteFailed(e: FileError) // `write_to_file` raised

  datatype Outcome =
    | Completed
    | Aborted(error: RunError)
    | Stuck(stuckAt: nat)       // the caption at `stuckAt` never fits: `i` stops advancing

  /** The fixed inputs of one run: the captions, their token costs, the cost
      of the context string, what the `call`-th rewrite of a batch gives
      back, and what writing a reply at an offset does to the document. */
  datatype Job = Job(captions: seq<string>, costs: seq<nat>, ctx: nat,
                     rewrite: (nat, seq<string>) -> Result<Json, RunError>,
                     write: (Json, nat, Json) -> Result<Json, FileError>)

  predicate ValidJob(job: Job) {
    |job.costs| == |job.captions|
  }

  /** What a run ends with: how it ended, the rounds it went through, and the
      document it left behind. */
  datatype Run = Run(outcome: Outcome, rounds: seq<Round>, final: Json)

  /** The file after the writes of `rounds`, in order. */
  function ApplyRounds(write: (Json, nat, Json) -> Result<Json, FileError>,
                       file: Json, rounds: seq<Round>): Result<Json, FileError>
    decreases |rounds|
  {
    if |rounds| == 0 then Ok(file)
    else
      match ApplyRounds(write, file, rounds[..|rounds| - 1])
      case Err(e) => Err(e)
      case Ok(f) => write(f, rounds[|rounds| - 1].offset, rounds[|rounds| - 1].reply)
  }

  lemma ApplyRoundsExtend(write: (Json, nat, Json) -> Result<Json, FileError>,
                          file: Json, rounds: seq<Round>, round: Round, f: Json)
    requires ApplyRounds(write, file, rounds) == Ok(f)
    ensures ApplyRounds(write, file, rounds + [round]) == write(f, round.offset, round.reply)
  {
    assert (rounds + [round])[..|rounds|] == rounds;
  }

  /** What the `call`-th `rewrite_caption` hands back for a batch: the
      model's reply to the split captions, newlines removed, then parsed.
      `llm` gives `None` when the chat call raises or its message content
      is `None`, on which `.replace` raises. */
  function RewriteCaption(call: nat, batch: seq<string>, context: string,
                          llm: (nat, string, seq<seq<string>>, nat) -> Option<string>,
                          parse: string -> Option<Json>): Result<Json, RunError>
  {
    match llm(call, context, SplitAll(batch), CompletionLimit)
    case None => Err(CallFailed)
    case Some(content) =>
      match parse(StripNewlines(content))
      case None => Err(ReplyNotParsed)
      case Some(reply) => Ok(reply)
  }

  /** The run `rewrite_captions_in_batches` sets up: the tokenizer's cost of
      every caption and of the context, `rewrite_caption` with the context,
      and `write_to_file`. */
  function RephraseJob(captions: seq<string>, context: string, cost: string -> nat,
                       llm: (nat, string, seq<seq<string>>, nat) -> Option<string>,
                       parse: string -> Option<Json>): Job
  {
    Job(captions, Costs(captions, cost), cost(context),
        (call: nat, b: seq<string>) => RewriteCaption(call, b, context, llm, parse),
        (f: Json, at: nat, r: Json) => WriteToFile(f, at, r))
  }

  /** The outer loop from index `i` with `startingPoint == sp`, after
      `rounds` have been written and the document is `file`; the step
      follows lines 89-110 one to one, and the rewrite is call number
      `|rounds|`. A batch that stays empty ends the run as `Stuck` after its
      round; the passes after it are those of `StuckPasses`. */
  function RunFrom(job: Job, i: nat, sp: nat, rounds: seq<Round>, file: Json): Run
    requires ValidJob(job) && i <= |job.captions|
    decreases |job.captions| - i
  {
    if i == |job.captions| then Run(Completed, rounds, file)
    else
      var e := GreedyEnd(job.costs, job.ctx, i, 0);
      match job.rewrite(|rounds|, job.captions[i..e])
      case Err(err) => Run(Aborted(err), rounds, file)
      case Ok(reply) =>
        match job.write(file, sp, reply)
        case Err(err) => Run(Aborted(WriteFailed(err)), rounds, file)
        case Ok(f) =>
          var done := rounds + [Round(i, e, sp, reply)];
          if e == i then Run(Stuck(i), done, f)
          else RunFrom(job, e, e, done, f)
  }

  /** The loop of `rewrite_captions_in_batches` with the token costs of the
      captions and of the context already estimated. */
  method RunBatches(job: Job, file: Json) returns (outcome: Outcome, rounds: seq<Round>, final: Json)
    requires ValidJob(job)
    ensures Run(outcome, rounds, final) == RunFrom(job, 0, 0, [], file)
  {
    var n := |job.captions|;
    var startingPoint := 0;
    var i := 0;
    rounds := [];
    final := file;
    while i < n
      invariant i <= n
      invariant RunFrom(job, i, startingPoint, rounds, final) == RunFrom(job, 0, 0, [], file)
      decreases n - i
    {
      var start := i;
      i := GatherBatch(job.costs, job.ctx, start);
      var reply := job.rewrite(|rounds|, job.captions[start..i]);
      if reply.Err? {
        return Aborted(reply.error), rounds, final;
      }
      var written := job.write(final, startingPoint, reply.value);
      if written.Err? {
        return Aborted(WriteFailed(written.error)), rounds, final;
      }
      rounds := rounds + [Round(start, i, startingPoint, reply.value)];
      final := written.value;
      if i == start {
        return Stuck(start), rounds, final;
      }
      startingPoint := i;
    }
    outcome := Completed;
  }

  /** The inner loop: from `start`, take captions while the admission test
      passes; the result is the index of the first caption not taken. */
  method GatherBatch(costs: seq<nat>, ctx: nat, start: nat) returns (i: nat)
    requires start <= |costs|
    ensures i == GreedyEnd(costs, ctx, start, 0)
    ensures forall k :: start <= k < i ==> Admits(ctx, 0, costs[k])
  {
    var running := 0;
    i := start;
    while i < |costs|
      invariant start <= i <= |costs|
      invariant GreedyEnd(costs, ctx, i, running) == GreedyEnd(costs, ctx, start, 0)
      invariant forall k :: start <= k < i ==> Admits(ctx, 0, costs[k])
      invariant running >= 0
      decreases |costs| - i
    {
      var captionLength := costs[i];
      if running + captionLength + ctx + 1000 >= InputLimit(ctx) {
        break;
      }
      running := running + captionLength;
      i := i + 1;
    }
  }

  /** Where the next batch starts after `rounds`. */
  function NextStart(rounds: seq<Round>): nat {
    if |rounds| == 0 then 0 else rounds[|rounds| - 1].end
  }

  /** The rounds follow the greedy cut of the captions from index 0: each
      starts where the previous ended, is written at its own first index,
      ends where the admission test stops it, and carries the reply to its
      captions. */
  predicate RoundsFollowGreedy(job: Job, rounds: seq<Round>)
    requires ValidJob(job)
  {
    && (|rounds| > 0 ==> rounds[0].start == 0)
    && (forall k :: 0 <= k < |rounds| - 1 ==> rounds[k].end == rounds[k + 1].start)
    && forall k :: 0 <= k < |rounds| ==> GreedyRound(job, k, rounds[k])
  }

  /** The `k`-th round, cut by the admission test, written at its first
      index, whose reply is the `k`-th call's answer to its captions. */
  predicate GreedyRound(job: Job, k: nat, r: Round)
    requires ValidJob(job)
  {
    && r.start <= |job.captions|
    && r.offset == r.start
    && r.end == GreedyEnd(job.costs, job.ctx, r.start, 0)
    && job.rewrite(k, job.captions[r.start..r.end]) == Ok(r.reply)
  }

  predicate NonEmptyRounds(rounds: seq<Round>) {
    forall k :: 0 <= k < |rounds| ==> rounds[k].start < rounds[k].end
  }

  lemma RoundsExtend(job: Job, rounds: seq<Round>, round: Round)
    requires ValidJob(job) && RoundsFollowGreedy(job, rounds)
    requires round.start == NextStart(rounds) <= |job.captions| && round.offset == round.start
    requires round.end == GreedyEnd(job.costs, job.ctx, round.start, 0)
    requires job.rewrite(|rounds|, job.captions[round.start..round.end])
               == Ok(round.reply)
    ensures RoundsFollowGreedy(job, rounds + [round])
  {
    var done := rounds + [round];
    assert forall k :: 0 <= k < |rounds| ==> done[k] == rounds[k];
  }

  /** Every run goes through rounds that follow the greedy cut, and all its
      batches are non-empty except the last batch of a stuck run. */
  lemma {:induction false} RunFollowsGreedy(job: Job, i: nat, rounds: seq<Round>, file: Json)
    requires ValidJob(job) && i <= |job.captions| && i == NextStart(rounds)
    requires RoundsFollowGreedy(job, rounds) && NonEmptyRounds(rounds)
    ensures var r := RunFrom(job, i, i, rounds, file);
            && RoundsFollowGreedy(job, r.rounds)
            && (forall k :: 0 <= k < |r.rounds| && !(r.outcome.Stuck? && k == |r.rounds| - 1) ==>
                  r.rounds[k].start < r.rounds[k].end)
    decreases |job.captions| - i
  {
    if i < |job.captions| {
      var e := GreedyEnd(job.costs, job.ctx, i, 0);
      var reply := job.rewrite(|rounds|, job.captions[i..e]);
      if reply.Ok? && job.write(file, i, reply.value).Ok? {
        var round := Round(i, e, i, reply.value);
        var done := rounds + [round];
        RoundsExtend(job, rounds, round);
        assert forall k :: 0 <= k < |rounds| ==> done[k] == rounds[k];
        if e > i {
          RunFollowsGreedy(job, e, done, job.write(file, i, reply.value).value);
        }
      }
    }
  }

  /** The document a run leaves behind is the result of writing its rounds'
      replies, in order, into the document it started from. */
  lemma {:induction false} RunWrites(job: Job, file0: Json, i: nat, sp: nat, rounds: seq<Round>, file: Json)
    requires ValidJob(job) && i <= |job.captions|
    requires ApplyRounds(job.write, file0, rounds) == Ok(file)
    ensures var r := RunFrom(job, i, sp, rounds, file);
            ApplyRounds(job.write, file0, r.rounds) == Ok(r.final)
    decreases |job.captions| - i
  {
    if i < |job.captions| {
      var e := GreedyEnd(job.costs, job.ctx, i, 0);
      var reply := job.rewrite(|rounds|, job.captions[i..e]);
      if reply.Ok? && job.write(file, sp, reply.value).Ok? {
        var round := Round(i, e, sp, reply.value);
        ApplyRoundsExtend(job.write, file0, rounds, round, file);
        if e > i {
          RunWrites(job, file0, e, e, rounds + [round], job.write(file, sp, reply.value).value);
        }
      }
    }
  }

  /** A run that completes has handed every caption to some batch, and then
      every caption passed the admission test on its own. */
  lemma {:induction false} RunCompleted(job: Job, i: nat, sp: nat, rounds: seq<Round>, file: Json)
    requires ValidJob(job) && i <= |job.captions| && i == NextStart(rounds)
    requires forall k :: 0 <= k < i ==> Admits(job.ctx, 0, job.costs[k])
    ensures var r := RunFrom(job, i, sp, rounds, file);
            r.outcome.Completed? ==>
              && NextStart(r.rounds) == |job.captions|
              && EachFits(job.costs, job.ctx)
    decreases |job.captions| - i
  {
    if i < |job.captions| {
      var e := GreedyEnd(job.costs, job.ctx, i, 0);
      var reply := job.rewrite(|rounds|, job.captions[i..e]);
      if reply.Ok? && job.write(file, sp, reply.value).Ok? && e > i {
        var done := rounds + [Round(i, e, sp, reply.value)];
        BatchMembersFit(job.costs, job.ctx, i);
        RunCompleted(job, e, e, done, job.write(file, sp, reply.value).value);
      }
    }
  }

  /** A run gets stuck only at a caption that alone fails the admission
      test, after one round with an empty batch at that caption. */
  lemma {:induction false} RunGetsStuck(job: Job, i: nat, sp: nat, rounds: seq<Round>, file: Json)
    requires ValidJob(job) && i <= |job.captions|
    ensures var r := RunFrom(job, i, sp, rounds, file);
            r.outcome.Stuck? ==>
              && |r.rounds| > 0
              && r.outcome.stuckAt == r.rounds[|r.rounds| - 1].start == r.rounds[|r.rounds| - 1].end
              && r.outcome.stuckAt < |job.captions|
              && !Admits(job.ctx, 0, job.costs[r.outcome.stuckAt])
    decreases |job.captions| - i
  {
    if i < |job.captions| {
      var e := GreedyEnd(job.costs, job.ctx, i, 0);
      EmptyBatchIffTooLong(job.costs, job.ctx, i);
      var reply := job.rewrite(|rounds|, job.captions[i..e]);
      if reply.Ok? && job.write(file, sp, reply.value).Ok? && e > i {
        RunGetsStuck(job, e, e, rounds + [Round(i, e, sp, reply.value)], job.write(file, sp, reply.value).value);
      }
    }
  }

  /** `n` further passes of the outer loop once `i` is stuck at `at`. Each
      pass sends the empty batch as call number `|rounds|`, writes the reply
      at `at`, where `starting_point` now stays, and leaves `i` at `at`; only
      a call that fails, a reply that does not parse or a write that fails
      ends the loop. */
  function StuckPasses(job: Job, at: nat, rounds: seq<Round>, file: Json, n: nat): Run
    decreases n
  {
    if n == 0 then Run(Stuck(at), rounds, file)
    else
      match job.rewrite(|rounds|, [])
      case Err(err) => Run(Aborted(err), rounds, file)
      case Ok(reply) =>
        match job.write(file, at, reply)
        case Err(err) => Run(Aborted(WriteFailed(err)), rounds, file)
        case Ok(f) => StuckPasses(job, at, rounds + [Round(at, at, at, reply)], f, n - 1)
  }

  /** A stuck loop never completes. Its passes append empty rounds at `at`,
      the `k`-th carrying the `k`-th call's reply; it is still stuck after
      `n` passes exactly when all `n` went through, and otherwise it stopped
      at the first pass whose call failed, whose reply did not parse or
      whose write failed. */
  lemma {:induction false} StuckPassesShape(job: Job, at: nat, rounds: seq<Round>, file: Json, n: nat)
    ensures var r := StuckPasses(job, at, rounds, file, n);
            && !r.outcome.Completed?
            && |rounds| <= |r.rounds| <= |rounds| + n
            && r.rounds[..|rounds|] == rounds
            && (forall k :: |rounds| <= k < |r.rounds| ==>
                  && r.rounds[k] == Round(at, at, at, r.rounds[k].reply)
                  && job.rewrite(k, []) == Ok(r.rounds[k].reply))
            && (r.outcome.Stuck? <==> |r.rounds| == |rounds| + n)
            && (r.outcome.Stuck? ==> r.outcome.stuckAt == at)
            && (r.outcome.Aborted? ==>
                  var reply := job.rewrite(|r.rounds|, []);
                  if reply.Err? then r.outcome.error == reply.error
                  else r.outcome.error.WriteFailed? && job.write(r.final, at, reply.value) == Err(r.outcome.error.e))
    decreases n
  {
    if n > 0 {
      var reply := job.rewrite(|rounds|, []);
      if reply.Ok? && job.write(file, at, reply.value).Ok? {
        var done := rounds + [Round(at, at, at, reply.value)];
        StuckPassesShape(job, at, done, job.write(file, at, reply.value).value, n - 1);
        var r := StuckPasses(job, at, done, job.write(file, at, reply.value).value, n - 1);
        assert r.rounds[..|done|] == done;
        assert r.rounds[..|rounds|] == done[..|rounds|] == rounds;
        assert r.rounds[|rounds|] == done[|rounds|];
      }
    }
  }

  /** The passes of a stuck loop are rounds of the loop too: each cuts the
      greedy batch at `at`, which is empty, so the rounds keep following the
      greedy cut, and the document is still the result of their writes. */
  lemma {:induction false} StuckPassesFollowGreedy(job: Job, file0: Json, at: nat, rounds: seq<Round>, file: Json, n: nat)
    requires ValidJob(job) && at < |job.captions| && !Admits(job.ctx, 0, job.costs[at])
    requires RoundsFollowGreedy(job, rounds) && NextStart(rounds) == at
    requires ApplyRounds(job.write, file0, rounds) == Ok(file)
    ensures var r := StuckPasses(job, at, rounds, file, n);
            && RoundsFollowGreedy(job, r.rounds)
            && ApplyRounds(job.write, file0, r.rounds) == Ok(r.final)
    decreases n
  {
    if n > 0 {
      var reply := job.rewrite(|rounds|, []);
      if reply.Ok? && job.write(file, at, reply.value).Ok? {
        var round := Round(at, at, at, reply.value);
        EmptyBatchIffTooLong(job.costs, job.ctx, at);
        assert job.captions[at..at] == [];
        RoundsExtend(job, rounds, round);
        ApplyRoundsExtend(job.write, file0, rounds, round, file);
        StuckPassesFollowGreedy(job, file0, at, rounds + [round], job.write(file, at, reply.value).value, n - 1);
      }
    }
  }

  /** After a run gets stuck, whatever number of further passes the loop
      makes, it never completes, its rounds still follow the greedy cut
      from caption 0, and the document is still the result of their writes. */
  lemma StuckRunContinues(job: Job, file: Json, n: nat)
    requires ValidJob(job)
    ensures var r := RunFrom(job, 0, 0, [], file);
            r.outcome.Stuck? ==>
              var s := StuckPasses(job, r.outcome.stuckAt, r.rounds, r.final, n);
              && !s.outcome.Completed?
              && RoundsFollowGreedy(job, s.rounds)
              && ApplyRounds(job.write, file, s.rounds) == Ok(s.final)
  {
    var r := RunFrom(job, 0, 0, [], file);
    RunFollowsGreedy(job, 0, [], file);
    RunWrites(job, file, 0, 0, [], file);
    RunGetsStuck(job, 0, 0, [], file);
    if r.outcome.Stuck? {
      StuckPassesShape(job, r.outcome.stuckAt, r.rounds, r.final, n);
      StuckPassesFollowGreedy(job, file, r.outcome.stuckAt, r.rounds, r.final, n);
    }
  }

  /** The stuck loop really does not end: when the model answers every
      empty batch with `[]` and the document is a dict, every write
      succeeds, so after any number of passes the loop is still stuck. */
  lemma {:induction false} StuckLoopRunsOn(captions: seq<string>, context: string, cost: string -> nat,
                                           llm: (nat, string, seq<seq<string>>, nat) -> Option<string>,
                                           parse: string -> Option<Json>,
                                           at: nat, rounds: seq<Round>, file: Json, n: nat)
    requires forall k :: RewriteCaption(k, [], context, llm, parse) == Ok(Arr([]))
    requires file.Obj?
    ensures var r := StuckPasses(RephraseJob(captions, context, cost, llm, parse), at, rounds, file, n);
            r.outcome == Stuck(at) && |r.rounds| == |rounds| + n
    decreases n
  {
    if n > 0 {
      var job := RephraseJob(captions, context, cost, llm, parse);
      assert job.rewrite(|rounds|, []) == Ok(Arr([]));
      var f := WriteToFile(file, at, Arr([]));
      assert f.Ok? && f.value.Obj?;
      StuckLoopRunsOn(captions, context, cost, llm, parse, at, rounds + [Round(at, at, at, Arr([]))], f.value, n - 1);
    }
  }

  /** A run that aborts does so on the batch after its last round: either
      the rewrite of that batch failed, with the rewrite's own error, or
      writing its reply failed; the document is left as the earlier rounds
      wrote it. */
  lemma {:induction false} RunAborted(job: Job, i: nat, rounds: seq<Round>, file: Json)
    requires ValidJob(job) && i <= |job.captions| && i == NextStart(rounds)
    ensures var r := RunFrom(job, i, i, rounds, file);
            r.outcome.Aborted? ==>
              && NextStart(r.rounds) < |job.captions|
              && var next := NextStart(r.rounds);
                 var e := GreedyEnd(job.costs, job.ctx, next, 0);
                 var reply := job.rewrite(|r.rounds|, job.captions[next..e]);
                 if reply.Err? then r.outcome.error == reply.error
                 else r.outcome.error.WriteFailed? && job.write(r.final, next, reply.value) == Err(r.outcome.error.e)
    decreases |job.captions| - i
  {
    if i < |job.captions| {
      var e := GreedyEnd(job.costs, job.ctx, i, 0);
      var reply := job.rewrite(|rounds|, job.captions[i..e]);
      if reply.Ok? && job.write(file, i, reply.value).Ok? && e > i {
        RunAborted(job, e, rounds + [Round(i, e, i, reply.value)], job.write(file, i, reply.value).value);
      }
    }
  }

  /** A run only appends to the rounds it started with. */
  lemma {:induction false} RunRoundsPrefix(job: Job, i: nat, sp: nat, rounds: seq<Round>, file: Json)
    requires ValidJob(job) && i <= |job.captions|
    ensures var r := RunFrom(job, i, sp, rounds, file);
            |r.rounds| >= |rounds| && r.rounds[..|rounds|] == rounds
    decreases |job.captions| - i
  {
    if i < |job.captions| {
      var e := GreedyEnd(job.costs, job.ctx, i, 0);
      var reply := job.rewrite(|rounds|, job.captions[i..e]);
      if reply.Ok? && job.write(file, sp, reply.value).Ok? {
        var done := rounds + [Round(i, e, sp, reply.value)];
        if e > i {
          RunRoundsPrefix(job, e, e, done, job.write(file, sp, reply.value).value);
        }
        assert done[..|rounds|] == rounds;
      }
    }
  }

  /** The `[start, end)` ranges of the rounds, in order. */
  function Bounds(rounds: seq<Round>): seq<(nat, nat)> {
    seq(|rounds|, k requires 0 <= k < |rounds| => (rounds[k].start, rounds[k].end))
  }

  /** When every caption fits on its own, a completed run went through
      exactly the batches of `Partition`, in order. */
  lemma CompletedRunIsPartition(job: Job, file: Json)
    requires ValidJob(job)
    ensures var r := RunFrom(job, 0, 0, [], file);
            r.outcome.Completed? ==>
              && EachFits(job.costs, job.ctx)
              && Bounds(r.rounds) == Partition(job.costs, job.ctx, 0)
  {
    var r := RunFrom(job, 0, 0, [], file);
    RunFollowsGreedy(job, 0, [], file);
    RunCompleted(job, 0, 0, [], file);
    if r.outcome.Completed? {
      var bs := Bounds(r.rounds);
      forall k | 0 <= k < |bs|
        ensures bs[k].0 < bs[k].1 && bs[k].0 <= |job.costs|
        ensures bs[k].1 == GreedyEnd(job.costs, job.ctx, bs[k].0, 0)
      {
        assert GreedyRound(job, k, r.rounds[k]);
      }
      GreedyChainIsPartition(job.costs, job.ctx, bs, 0);
    }
  }

  /** Rounds that hand every caption over exactly once: their batches run
      contiguously from caption 0 to the last caption, are never empty,
      stay within the input budget, and their captions concatenate to the
      whole list. */
  predicate CoversOnce(job: Job, rounds: seq<Round>)
    requires ValidJob(job)
  {
    && Contiguous(Bounds(rounds), 0, |job.captions|)
    && (forall k :: 0 <= k < |rounds| ==>
          && rounds[k].start < rounds[k].end <= |job.captions|
          && Sum(job.costs[rounds[k].start..rounds[k].end]) < InputLimit(job.ctx) - job.ctx - 1000)
    && Gather(job.captions, Bounds(rounds)) == job.captions
  }

  /** A completed run hands every caption over exactly once. */
  lemma CompletedRunCovers(job: Job, file: Json)
    requires ValidJob(job)
    ensures var r := RunFrom(job, 0, 0, [], file);
            r.outcome.Completed? ==> CoversOnce(job, r.rounds)
  {
    var r := RunFrom(job, 0, 0, [], file);
    CompletedRunIsPartition(job, file);
    if r.outcome.Completed? {
      PartitionRounds(job, r.rounds);
    }
  }

  /** Rounds whose ranges are the greedy partition cover the captions. */
  lemma PartitionRounds(job: Job, rounds: seq<Round>)
    requires ValidJob(job) && EachFits(job.costs, job.ctx)
    requires Bounds(rounds) == Partition(job.costs, job.ctx, 0)
    ensures CoversOnce(job, rounds)
  {
    var bs := Bounds(rounds);
    PartitionBudget(job.costs, job.ctx, bs);
    PartitionCovers(job.captions, job.costs, job.ctx);
    forall k | 0 <= k < |rounds|
      ensures rounds[k].start < rounds[k].end <= |job.captions|
      ensures Sum(job.costs[rounds[k].start..rounds[k].end]) < InputLimit(job.ctx) - job.ctx - 1000
    {
      assert bs[k] == (rounds[k].start, rounds[k].end);
    }
  }

  /** The greedy partition's batches, stated for a name of it. */
  lemma PartitionBudget(costs: seq<nat>, ctx: nat, bs: seq<(nat, nat)>)
    requires EachFits(costs, ctx) && bs == Partition(costs, ctx, 0)
    ensures forall k :: 0 <= k < |bs| ==>
              && bs[k].0 < bs[k].1 <= |costs|
              && Sum(costs[bs[k].0..bs[k].1]) < InputLimit(ctx) - ctx - 1000
  {
    forall k | 0 <= k < |bs|
      ensures Sum(costs[bs[k].0..bs[k].1]) < InputLimit(ctx) - ctx - 1000
    {
      BatchWithinBudget(costs, ctx, bs[k].0);
    }
  }

  /** How an aborted run of `rewrite_captions_in_batches` ended, stated over
      the chat model and the parser: on the batch after the last round,
      the call failed, or its cleaned reply did not parse, or writing the
      parsed reply failed. */
  lemma RephraseAborted(captions: seq<string>, context: string, cost: string -> nat,
                        llm: (nat, string, seq<seq<string>>, nat) -> Option<string>,
                        parse: string -> Option<Json>, file: Json)
    ensures var r := RunFrom(RephraseJob(captions, context, cost, llm, parse), 0, 0, [], file);
            r.outcome.Aborted? ==>
              && NextStart(r.rounds) < |captions|
              && var next := NextStart(r.rounds);
                 var e := GreedyEnd(Costs(captions, cost), cost(context), next, 0);
                 var answer := llm(|r.rounds|, context, SplitAll(captions[next..e]), CompletionLimit);
                 match r.outcome.error
                 case CallFailed => answer.None?
                 case ReplyNotParsed => answer.Some? && parse(StripNewlines(answer.value)).None?
                 case WriteFailed(err) =>
                   && answer.Some? && parse(StripNewlines(answer.value)).Some?
                   && WriteToFile(r.final, next, parse(StripNewlines(answer.value)).value) == Err(err)
  {
    var job := RephraseJob(captions, context, cost, llm, parse);
    RunAborted(job, 0, [], file);
  }

  /** `rewrite_captions_in_batches(combinations, context_string)` against the
      document `file`, with the tokenizer `cost`, the chat model `llm` and
      the JSON parser `parse`. */
  method RewriteCaptionsInBatches(captions: seq<string>, context: string, cost: string -> nat,
                                  llm: (nat, string, seq<seq<string>>, nat) -> Option<string>,
                                  parse: string -> Option<Json>, file: Json)
    returns (outcome: Outcome, rounds: seq<Round>, final: Json)
    ensures var job := RephraseJob(captions, context, cost, llm, parse);
            && RoundsFollowGreedy(job, rounds)
            && ApplyRounds(job.write, file, rounds) == Ok(final)
    ensures forall k :: 0 <= k < |rounds| && !(outcome.Stuck? && k == |rounds| - 1) ==>
              rounds[k].start < rounds[k].end
    ensures outcome.Completed? ==>
              && EachFits(Costs(captions, cost), cost(context))
              && Bounds(rounds) == Partition(Costs(captions, cost), cost(context), 0)
    ensures outcome.Stuck? ==>
              && |rounds| > 0
              && outcome.stuckAt == rounds[|rounds| - 1].start == rounds[|rounds| - 1].end
              && outcome.stuckAt < |captions|
              && !Admits(cost(context), 0, cost(captions[outcome.stuckAt]))
    ensures outcome.Aborted? ==>
              && NextStart(rounds) < |captions|
              && var next := NextStart(rounds);
                 var e := GreedyEnd(Costs(captions, cost), cost(context), next, 0);
                 var answer := llm(|rounds|, context, SplitAll(captions[next..e]), CompletionLimit);
                 match outcome.error
                 case CallFailed => answer.None?
                 case ReplyNotParsed => answer.Some? && parse(StripNewlines(answer.value)).None?
                 case WriteFailed(err) =>
                   && answer.Some? && parse(StripNewlines(answer.value)).Some?
                   && WriteToFile(final, next, parse(StripNewlines(answer.value)).value) == Err(err)
  {
    var job := RephraseJob(captions, context, cost, llm, parse);
    outcome, rounds, final := RunBatches(job, file);
    RunFollowsGreedy(job, 0, [], file);
    RunWrites(job, file, 0, 0, [], file);
    CompletedRunIsPartition(job, file);
    RunGetsStuck(job, 0, 0, [], file);
    RephraseAborted(captions, context, cost, llm, parse, file);
  }
}

/** What both executors rely on while they send a batch: how far they are, and what is buffered. */
module GroupingProgress {

  import opened Basics
  import opened PhaseGroups
  import opened GraphStores

  /** The chunks still to send from `start` on. */
  function ChunksFrom(stmts: seq<Statement>, size: nat, start: nat): seq<Call>
    requires size > 0
  {
    if start < |stmts| then Chunks(stmts[start..], size) else []
  }

  /** The chunks `done` have been sent, and those from `start` on have not. */
  ghost predicate ChunksSent(accepts: Acceptance, before: seq<Call>, plan: seq<Call>, done: seq<Call>, rest: seq<Call>,
                             now: seq<Call>) {
    plan == done + rest && Ran(accepts, before, done, now, true)
  }

  lemma ChunkStep(stmts: seq<Statement>, start: nat, end: nat, size: nat)
    requires size > 0 && start < |stmts| && end == Min(start + size, |stmts|)
    ensures ChunksFrom(stmts, size, start) == [Many(stmts[start..end])] + ChunksFrom(stmts, size, start + size)
  {
    var rest := stmts[start..];
    if |rest| <= size {
      assert rest == stmts[start..end];
    } else {
      assert rest[..size] == stmts[start..end] && rest[size..] == stmts[end..];
    }
  }

  lemma SendChunk(accepts: Acceptance, before: seq<Call>, plan: seq<Call>, done: seq<Call>, call: Call, rest: seq<Call>,
                  mid: seq<Call>, now: seq<Call>, ok: bool)
    requires ChunksSent(accepts, before, plan, done, [call] + rest, mid) && Ran(accepts, mid, [call], now, ok)
    ensures ok ==> ChunksSent(accepts, before, plan, done + [call], rest, now)
    ensures !ok ==> Ran(accepts, before, plan, now, false)
  {
    RanThen(accepts, before, done, mid, [call], now, ok);
    Regroup(plan, done, call, [call] + rest, rest, done + [call]);
    if !ok {
      RanStops(accepts, before, done + [call], now, rest);
    }
  }

  /** The chunks `done` have been sent, and they are those before `start`. */
  ghost predicate ChunkedTo(accepts: Acceptance, before: seq<Call>, stmts: seq<Statement>, size: nat, start: nat,
                            done: seq<Call>, now: seq<Call>)
    requires size > 0
  {
    ChunksSent(accepts, before, Chunks(stmts, size), done, ChunksFrom(stmts, size, start), now)
  }

  lemma NoChunkYet(accepts: Acceptance, before: seq<Call>, stmts: seq<Statement>, size: nat)
    requires size > 0
    ensures ChunkedTo(accepts, before, stmts, size, 0, [], before)
  {
    assert stmts[0..] == stmts;
    assert [] + Chunks(stmts, size) == Chunks(stmts, size);
  }

  lemma LastChunk(accepts: Acceptance, before: seq<Call>, stmts: seq<Statement>, size: nat, start: nat, done: seq<Call>,
                  now: seq<Call>)
    requires size > 0 && start >= |stmts| && ChunkedTo(accepts, before, stmts, size, start, done, now)
    ensures done == Chunks(stmts, size) && Ran(accepts, before, done, now, true)
  {
    assert done + [] == done;
  }

  lemma NextChunk(accepts: Acceptance, before: seq<Call>, stmts: seq<Statement>, size: nat, start: nat, end: nat,
                  done: seq<Call>, mid: seq<Call>, now: seq<Call>, ok: bool)
    requires size > 0 && start < |stmts| && end == Min(start + size, |stmts|)
    requires ChunkedTo(accepts, before, stmts, size, start, done, mid)
    requires now == mid + [SanitizedCall(Many(stmts[start..end]))] && ok == accepts(mid, SanitizedCall(Many(stmts[start..end])))
    ensures ok ==> ChunkedTo(accepts, before, stmts, size, start + size, done + [Many(stmts[start..end])], now)
    ensures !ok ==> Ran(accepts, before, Chunks(stmts, size), now, false)
  {
    var call := Many(stmts[start..end]);
    ChunkStep(stmts, start, end, size);
    RanOne(accepts, mid, call);
    SendChunk(accepts, before, Chunks(stmts, size), done, call, ChunksFrom(stmts, size, start + size), mid, now, ok);
  }

  /** One statement sent on its own, after those before it. */
  lemma SinglesStep(accepts: Acceptance, before: seq<Call>, stmts: seq<Statement>, i: nat, mid: seq<Call>, now: seq<Call>, ok: bool)
    requires i < |stmts| && Ran(accepts, before, Singles(stmts[..i]), mid, true)
    requires now == mid + [One(Sanitized(stmts[i]))] && ok == accepts(mid, One(Sanitized(stmts[i])))
    ensures ok ==> Ran(accepts, before, Singles(stmts[..i + 1]), now, true)
    ensures !ok ==> Ran(accepts, before, Singles(stmts), now, false)
  {
    RanOne(accepts, mid, One(stmts[i]));
    assert Singles(stmts[..i + 1]) == Singles(stmts[..i]) + [One(stmts[i])];
    RanThen(accepts, before, Singles(stmts[..i]), mid, [One(stmts[i])], now, ok);
    if !ok {
      assert Singles(stmts) == Singles(stmts[..i + 1]) + Singles(stmts[i + 1..]);
      RanStops(accepts, before, Singles(stmts[..i + 1]), now, Singles(stmts[i + 1..]));
    }
  }

  /** The buffer holds statements `from..to`, which can share a group, and its label. */
  ghost predicate Buffers(limits: Limits, stmts: seq<Statement>, from: nat, to: nat,
                          grouped: seq<Statement>, groupedLabel: string) {
    && from <= to <= |stmts| && grouped == stmts[from..to]
    && (grouped == [] ==> groupedLabel == "")
    && (grouped != [] ==> groupedLabel == Label(grouped[0]) && |grouped| <= Limit(limits, grouped[0]))
    && (forall i :: 0 <= i < |grouped| ==> Joins(grouped[i], groupedLabel))
  }

  /** The buffer is full, or the next statement cannot join it. */
  ghost predicate Due(limits: Limits, stmts: seq<Statement>, to: nat, grouped: seq<Statement>)
    requires grouped != []
  {
    |grouped| == Limit(limits, grouped[0]) || to >= |stmts| || !Joins(stmts[to], Label(grouped[0]))
  }

  /** A buffer that is due is exactly one group, and within its limit one chunk. */
  lemma DueBufferIsGroup(limits: Limits, stmts: seq<Statement>, from: nat, to: nat,
                         grouped: seq<Statement>, groupedLabel: string)
    requires Buffers(limits, stmts, from, to, grouped, groupedLabel) && grouped != [] && Due(limits, stmts, to, grouped)
    ensures CallAt(limits, stmts, from, to, Many(grouped))
    ensures Chunks(grouped, Limit(limits, grouped[0])) == [Many(grouped)]
  {
    assert grouped[0] == stmts[from];
    assert forall i :: from <= i < to ==> stmts[i] == grouped[i - from];
  }

  /** Appending a statement that fits. */
  lemma BufferGrows(limits: Limits, stmts: seq<Statement>, from: nat, to: nat,
                    grouped: seq<Statement>, groupedLabel: string)
    requires Buffers(limits, stmts, from, to, grouped, groupedLabel) && to < |stmts|
    requires !ExecuteOnly(stmts[to]) && (grouped != [] ==> Label(stmts[to]) == groupedLabel)
    requires grouped != [] ==> |grouped| < Limit(limits, grouped[0])
    ensures Buffers(limits, stmts, from, to + 1, grouped + [stmts[to]], Label(stmts[to]))
  {
  }

  /** Appends it in place; the first statement's label is the buffer's. */
  method AppendToBuffer(limits: Limits, grouped: array<Statement>, size: nat, groupedLabel: string, stmt: Statement,
                        ghost stmts: seq<Statement>, ghost from: nat, ghost i: nat)
    returns (newLabel: string)
    requires i < |stmts| && stmts[i] == stmt && size < grouped.Length
    requires Buffers(limits, stmts, from, i, grouped[..size], groupedLabel)
    requires size > 0 ==> size < Limit(limits, grouped[0])
    requires !ExecuteOnly(stmt) && (size > 0 ==> Label(stmt) == groupedLabel)
    modifies grouped
    ensures grouped[..size + 1] == old(grouped[..size]) + [stmt]
    ensures Buffers(limits, stmts, from, i + 1, grouped[..size + 1], newLabel)
  {
    BufferGrows(limits, stmts, from, i, grouped[..size], groupedLabel);
    grouped[size] := stmt;
    assert grouped[..size + 1] == old(grouped[..size]) + [stmt];
    newLabel := if groupedLabel == "" then Label(stmt) else groupedLabel;
  }

  /** What an executor has sent so far, and where in the batch each call begins. */
  datatype Progress = Progress(done: seq<Call>, cuts: seq<nat>) {
    function From(): nat
      requires |cuts| > 0
    {
      cuts[|cuts| - 1]
    }

    function Add(call: Call, to: nat): Progress {
      Progress(done + [call], cuts + [to])
    }
  }

  /** The calls of `p` have been sent and take the statements before `p.From()`. */
  ghost predicate Sent(limits: Limits, accepts: Acceptance, before: seq<Call>, stmts: seq<Statement>,
                       p: Progress, now: seq<Call>, ok: bool) {
    && GroupedBy(limits, stmts, p.cuts, p.done)
    && p.From() <= |stmts|
    && Ran(accepts, before, p.done, now, ok)
  }

  lemma SendOne(limits: Limits, accepts: Acceptance, before: seq<Call>, stmts: seq<Statement>, p: Progress,
                to: nat, mid: seq<Call>, call: Call, now: seq<Call>, ok: bool)
    requires Sent(limits, accepts, before, stmts, p, mid, true)
    requires CallAt(limits, stmts, p.From(), to, call) && to <= |stmts|
    requires Ran(accepts, mid, [call], now, ok)
    ensures Sent(limits, accepts, before, stmts, p.Add(call, to), now, ok)
  {
    RanThen(accepts, before, p.done, mid, [call], now, ok);
    GroupedOneMore(limits, stmts, p.cuts, p.done, to, call);
  }

  lemma SentIsPlan(limits: Limits, accepts: Acceptance, before: seq<Call>, stmts: seq<Statement>,
                   p: Progress, now: seq<Call>, ok: bool)
    requires Sent(limits, accepts, before, stmts, p, now, ok) && (ok ==> p.From() == |stmts|)
    ensures Ran(accepts, before, Groups(limits, stmts), now, ok)
  {
    GroupedIsPrefix(limits, stmts, p.cuts, p.done);
    if ok {
      assert Groups(limits, stmts) == p.done;
    } else {
      RanStops(accepts, before, p.done, now, Groups(limits, stmts[p.From()..]));
    }
  }
}

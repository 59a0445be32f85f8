/** `retry_blocked_streams`: after the encoder stream has been read, the blocked streams
    whose count is reached are decoded again, smallest count first. */
module QpackRetry {
  import opened Bytes
  import opened Fields
  import opened FieldLines
  import opened FieldSection
  import opened InsertCount
  import opened TableModel
  import opened EncoderModel
  import opened QpackSystem
  import opened QpackInvariant
  import opened QpackSteps
  import opened QpackSafety

  /** An entry of `blocked_by_ricnt`. */
  datatype Waiting = Waiting(ric: nat, stream: nat)

  predicate Before(a: Waiting, b: Waiting) {
    a.ric < b.ric || (a.ric == b.ric && a.stream < b.stream)
  }

  /** The set is kept in order, each entry once. */
  predicate Ascending(q: seq<Waiting>) {
    forall i, j :: 0 <= i < j < |q| ==> Before(q[i], q[j])
  }

  /** The entries are exactly the blocked streams with their counts. */
  predicate Lists(q: seq<Waiting>, blocked: map<nat, nat>) {
    && (forall i :: 0 <= i < |q| ==> q[i].stream in blocked && blocked[q[i].stream] == q[i].ric)
    && (forall s :: s in blocked ==> Waiting(blocked[s], s) in q)
    && (forall i, j :: 0 <= i < j < |q| ==> q[i].stream != q[j].stream)
  }

  /** The first `n` entries are those whose count the decoder has reached. */
  method Unblockable(q: seq<Waiting>, insertCount: nat) returns (n: nat)
    requires Ascending(q)
    ensures n <= |q|
    ensures forall i :: 0 <= i < |q| ==> (q[i].ric <= insertCount <==> i < n)
  {
    n := 0;
    while n < |q| && q[n].ric <= insertCount
      invariant n <= |q|
      invariant forall i :: 0 <= i < n ==> q[i].ric <= insertCount
    {
      n := n + 1;
    }
    forall i | n <= i < |q|
      ensures q[i].ric > insertCount
    {
      assert i > n ==> Before(q[n], q[i]);
    }
  }

  function Retries(q: seq<Waiting>): (r: seq<Step>)
    ensures |r| == |q| && forall i :: 0 <= i < |r| ==> r[i] == RetrySection(q[i].stream)
  {
    seq(|q|, i requires 0 <= i < |q| => RetrySection(q[i].stream))
  }

  /** The first `n` streams of the list have each delivered one more field list, the others
      none. */
  predicate OneMoreEach(q: seq<Waiting>, n: nat, before: map<nat, seq<seq<Field>>>, after: map<nat, seq<seq<Field>>>) {
    forall i :: 0 <= i < |q| ==> |At(after, q[i].stream)| == |At(before, q[i].stream)| + if i < n then 1 else 0
  }

  lemma OneMoreStep(q: seq<Waiting>, k: nat, blocked: map<nat, nat>, before: map<nat, seq<seq<Field>>>,
                    mid: map<nat, seq<seq<Field>>>, after: map<nat, seq<seq<Field>>>)
    requires k < |q| && Lists(q, blocked) && OneMoreEach(q, k, before, mid)
    requires forall st: nat :: |At(after, st)| == |At(mid, st)| + if st == q[k].stream then 1 else 0
    ensures OneMoreEach(q, k + 1, before, after)
  {
    forall i | 0 <= i < |q|
      ensures |At(after, q[i].stream)| == |At(before, q[i].stream)| + if i < k + 1 then 1 else 0
    {
    }
  }

  lemma RetriesSnoc(steps: seq<Step>, q: seq<Waiting>, k: nat)
    requires k < |q|
    ensures steps + Retries(q[..k + 1]) == steps + Retries(q[..k]) + [RetrySection(q[k].stream)]
    ensures q[k..][0] == q[k] && q[k..][1..] == q[k + 1..]
  {
    assert Retries(q[..k + 1]) == Retries(q[..k]) + [RetrySection(q[k].stream)];
  }

  /** One retry of a stream whose count is reached: the step is possible, delivers one field
      list, and the stream is blocked no longer. */
  lemma RetryOne(c: Config, run: seq<System>, steps: seq<Step>, stream: nat) returns (longer: seq<System>)
    requires Agreed(c) && IsRun(c, run, steps) && stream in run[|steps|].blocked
    requires run[|steps|].blocked[stream] <= |run[|steps|].dec.log|
    ensures IsRun(c, longer, steps + [RetrySection(stream)])
    ensures |longer| == |steps| + 2 && var s, s2 := run[|steps|], longer[|steps| + 1];
      && s2.dec == s.dec && s2.blocked == Forget(s.blocked, stream)
      && (forall st: nat :: |At(s2.delivered, st)| == |At(s.delivered, st)| + if st == stream then 1 else 0)
  {
    hide DecodeSection, CountOf, Next, Enabled, IsRun;
    RunLength(c, run, steps);
    var s, step := run[|steps|], RetrySection(stream);
    RetrySucceeds(c, run, steps, |steps|, stream);
    EndToEnd(c, run, steps, |steps|, stream);
    RetryEnabled(c, s, stream);
    longer := run + [Next(c, s, step)];
    ExtendRun(c, run, steps, step);
    var f := Flight(At(s.sections, stream)[0], At(s.sent, stream)[|At(s.delivered, stream)|], s.blocked[stream], EMPTY);
    RetryIs(c, s, stream, f);
  }

  lemma RunLength(c: Config, run: seq<System>, steps: seq<Step>)
    requires Agreed(c) && IsRun(c, run, steps)
    ensures |run| == |steps| + 1
  {
    hide Enabled, Next, Init;
  }

  lemma RetryEnabled(c: Config, s: System, stream: nat)
    requires Agreed(c) && !s.failed && stream in s.blocked && s.blocked[stream] <= |s.dec.log|
        && At(s.sections, stream) != []
    ensures Enabled(c, s, RetrySection(stream))
  {
  }

  lemma ExtendRun(c: Config, run: seq<System>, steps: seq<Step>, step: Step)
    requires Agreed(c) && IsRun(c, run, steps) && Enabled(c, run[|steps|], step)
    ensures IsRun(c, run + [Next(c, run[|steps|], step)], steps + [step])
  {
    hide Enabled, Next, Init;
    var longer, more := run + [Next(c, run[|steps|], step)], steps + [step];
    forall i | 0 <= i < |more|
      ensures Enabled(c, longer[i], more[i]) && longer[i + 1] == Next(c, longer[i], more[i])
    {
      assert i < |steps| ==> more[i] == steps[i];
    }
  }

  /** What the first `n` retries achieve: none is put back, each of these streams delivers
      exactly one more field list, and what stays blocked is the rest of the list. */
  ghost predicate Retried(s: System, q: seq<Waiting>, n: nat, after: System) {
    n <= |q| && after.dec == s.dec && Lists(q[n..], after.blocked) && OneMoreEach(q, n, s.delivered, after.delivered)
  }

  lemma RetriedNext(s: System, q: seq<Waiting>, k: nat, mid: System, after: System)
    requires Lists(q, s.blocked) && Retried(s, q, k, mid) && k < |q|
    requires after.dec == mid.dec && after.blocked == Forget(mid.blocked, q[k].stream)
    requires forall st: nat :: |At(after.delivered, st)| == |At(mid.delivered, st)| + if st == q[k].stream then 1 else 0
    ensures Retried(s, q, k + 1, after)
  {
    hide OneMoreEach, Lists;
    assert q[k..][0] == q[k] && q[k..][1..] == q[k + 1..];
    ListsTail(q[k..], mid.blocked);
    OneMoreStep(q, k, s.blocked, s.delivered, mid.delivered, after.delivered);
  }

  /** Retrying, in order, the entries whose count is reached always succeeds. */
  lemma {:induction false} RetryAll(c: Config, run: seq<System>, steps: seq<Step>, q: seq<Waiting>, n: nat)
    returns (longer: seq<System>)
    requires Agreed(c) && IsRun(c, run, steps) && Lists(q, run[|steps|].blocked) && n <= |q|
    requires forall i :: 0 <= i < n ==> q[i].ric <= |run[|steps|].dec.log|
    ensures |longer| == |steps| + n + 1 && IsRun(c, longer, steps + Retries(q[..n]))
    ensures Retried(run[|steps|], q, n, longer[|steps| + n])
    decreases n
  {
    hide IsRun, OneMoreEach, Lists, Retries, Agreed, Retried;
    RunLength(c, run, steps);
    if n == 0 {
      NothingRetried(run[|steps|], steps, q);
      longer := run;
    } else {
      var k := n - 1;
      var mid := RetryAll(c, run, steps, q, k);
      RetriesSnoc(steps, q, k);
      HeadIsBlocked(run[|steps|], q, k, mid[|steps| + k]);
      longer := RetryOne(c, mid, steps + Retries(q[..k]), q[k].stream);
      RetriedNext(run[|steps|], q, k, mid[|steps| + k], longer[|steps| + n]);
    }
  }

  lemma HeadIsBlocked(s: System, q: seq<Waiting>, k: nat, mid: System)
    requires Retried(s, q, k, mid) && k < |q|
    ensures q[k].stream in mid.blocked && mid.blocked[q[k].stream] == q[k].ric && mid.dec == s.dec
  {
    assert q[k..][0] == q[k];
  }

  lemma NothingRetried(s: System, steps: seq<Step>, q: seq<Waiting>)
    requires Lists(q, s.blocked)
    ensures Retried(s, q, 0, s) && steps + Retries(q[..0]) == steps
  {
    assert q[0..] == q && Retries(q[..0]) == [];
  }

  lemma ListsTail(q: seq<Waiting>, blocked: map<nat, nat>)
    requires Lists(q, blocked) && q != []
    ensures Lists(q[1..], Forget(blocked, q[0].stream))
  {
    var rest, r := q[1..], Forget(blocked, q[0].stream);
    forall s | s in r
      ensures Waiting(r[s], s) in rest
    {
      var i :| 0 <= i < |q| && q[i] == Waiting(blocked[s], s);
      assert rest[i - 1] == q[i];
    }
  }

  // ---- The whole pass -----------------------------------------------------------------

  /** The steps of a pass over the first `n` entries: each stream is retried, in order, and
      after its retry any number of its further sections are decoded. */
  predicate IsPass(q: seq<Waiting>, n: nat, pass: seq<Step>)
    requires n <= |q|
    decreases |pass|
  {
    if pass == [] then n == 0
    else
      var before, last := pass[..|pass| - 1], pass[|pass| - 1];
      n > 0 && match last
        case RetrySection(stream) => stream == q[n - 1].stream && IsPass(q, n - 1, before)
        case DeliverSection(stream) => stream == q[n - 1].stream && IsPass(q, n, before)
        case _ => false
  }

  predicate Listed(q: seq<Waiting>, stream: nat) {
    exists i :: 0 <= i < |q| && q[i].stream == stream
  }

  /** After a pass over the first `n` entries: each of these streams has delivered something and
      has at most blocked anew, on a count that is not reached; the others wait as they did. */
  ghost predicate Passed(s: System, q: seq<Waiting>, n: nat, after: System)
    requires n <= |q|
  {
    && after.dec == s.dec
    && (forall i :: 0 <= i < n ==> |At(after.delivered, q[i].stream)| > |At(s.delivered, q[i].stream)|)
    && (forall i :: n <= i < |q| ==>
          && q[i].stream in after.blocked && after.blocked[q[i].stream] == q[i].ric
          && At(after.delivered, q[i].stream) == At(s.delivered, q[i].stream))
    && (forall stream :: stream in after.blocked ==>
          after.blocked[stream] > |s.dec.log| || (stream in s.blocked && after.blocked[stream] == s.blocked[stream]
                                                  && Listed(q[n..], stream)))
  }

  /** What decoding one more section of a stream changes, short of an error. */
  lemma DeliverEffect(c: Config, s: System, stream: nat)
    requires Agreed(c) && Enabled(c, s, DeliverSection(stream)) && !Next(c, s, DeliverSection(stream)).failed
    ensures var d := Next(c, s, DeliverSection(stream));
      && d.dec == s.dec
      && (forall st: nat :: st != stream ==> At(d.delivered, st) == At(s.delivered, st))
      && |At(d.delivered, stream)| >= |At(s.delivered, stream)|
      && (d.blocked == s.blocked
          || (stream in d.blocked && d.blocked == s.blocked[stream := d.blocked[stream]]
              && d.blocked[stream] > |s.dec.log|))
  {
    hide SectionCount, DecodeBody;
  }

  /** What a retry changes, short of an error, when the section decodes. */
  lemma RetryEffect(c: Config, s: System, stream: nat, fields: seq<Field>)
    requires Agreed(c) && Enabled(c, s, RetrySection(stream))
    requires DecodeSection(c.book, s.dec, At(s.sections, stream)[0], c.maxCapacity, c.maxSize) == Decoded(fields)
    ensures var d := Next(c, s, RetrySection(stream));
      && d.dec == s.dec && d.blocked == Forget(s.blocked, stream)
      && At(d.delivered, stream) == At(s.delivered, stream) + [fields]
      && (forall st: nat :: st != stream ==> At(d.delivered, st) == At(s.delivered, st))
  {
    hide DecodeSection, CountOf;
  }

  lemma PassStart(s: System, q: seq<Waiting>)
    requires Lists(q, s.blocked)
    ensures Passed(s, q, 0, s)
  {
    assert q[0..] == q;
    forall stream | stream in s.blocked
      ensures Listed(q, stream)
    {
      var i :| 0 <= i < |q| && q[i] == Waiting(s.blocked[stream], stream);
    }
  }

  /** The retry of the next entry. */
  lemma PassRetry(s: System, q: seq<Waiting>, k: nat, mid: System, after: System, fields: seq<Field>)
    requires k < |q| && Lists(q, s.blocked) && Passed(s, q, k, mid)
    requires after.dec == mid.dec && after.blocked == Forget(mid.blocked, q[k].stream)
    requires At(after.delivered, q[k].stream) == At(mid.delivered, q[k].stream) + [fields]
    requires forall st: nat :: st != q[k].stream ==> At(after.delivered, st) == At(mid.delivered, st)
    ensures Passed(s, q, k + 1, after)
  {
    forall stream | stream in after.blocked && after.blocked[stream] <= |s.dec.log|
      ensures stream in s.blocked && after.blocked[stream] == s.blocked[stream] && Listed(q[k + 1..], stream)
    {
      ListedTail(q, k, stream);
    }
  }

  lemma ListedTail(q: seq<Waiting>, k: nat, stream: nat)
    requires k < |q| && Listed(q[k..], stream) && stream != q[k].stream
    ensures Listed(q[k + 1..], stream)
  {
    var i :| 0 <= i < |q[k..]| && q[k..][i].stream == stream;
    assert q[k + 1..][i - 1] == q[k..][i];
  }

  /** One more section of the stream that was retried last. */
  lemma PassMore(s: System, q: seq<Waiting>, n: nat, mid: System, after: System)
    requires 0 < n <= |q| && Lists(q, s.blocked) && Passed(s, q, n, mid)
    requires var stream := q[n - 1].stream;
      && after.dec == mid.dec
      && (forall st: nat :: st != stream ==> At(after.delivered, st) == At(mid.delivered, st))
      && |At(after.delivered, stream)| >= |At(mid.delivered, stream)|
      && (after.blocked == mid.blocked
          || (stream in after.blocked && after.blocked == mid.blocked[stream := after.blocked[stream]]
              && after.blocked[stream] > |mid.dec.log|))
    ensures Passed(s, q, n, after)
  {
  }

  lemma RunPrefix(c: Config, run: seq<System>, steps: seq<Step>)
    requires Agreed(c) && IsRun(c, run, steps) && steps != []
    ensures var n := |steps| - 1;
      && |run| == n + 2 && IsRun(c, run[..n + 1], steps[..n])
      && Enabled(c, run[n], steps[n]) && run[n + 1] == Next(c, run[n], steps[n])
  {
    hide Enabled, Next, Init;
    var n := |steps| - 1;
    forall i | 0 <= i < n
      ensures Enabled(c, run[..n + 1][i], steps[..n][i])
          && run[..n + 1][i + 1] == Next(c, run[..n + 1][i], steps[..n][i])
    {
      assert steps[..n][i] == steps[i];
    }
    assert steps[n] == steps[|steps| - 1];
  }

  /** Whatever else the retried streams deliver in between, a pass does what it should. */
  lemma {:induction false} PassOutcome(c: Config, run: seq<System>, steps: seq<Step>, q: seq<Waiting>, n: nat,
                                       pass: seq<Step>)
    requires Agreed(c) && IsRun(c, run, steps + pass) && n <= |q| && |steps| < |run|
    requires Lists(q, run[|steps|].blocked) && IsPass(q, n, pass)
    requires forall i :: 0 <= i < n ==> q[i].ric <= |run[|steps|].dec.log|
    ensures |run| == |steps| + |pass| + 1
    ensures Passed(run[|steps|], q, n, run[|steps| + |pass|])
    decreases |pass|
  {
    hide IsRun, Lists, Passed, Enabled, Next, Agreed;
    RunLength(c, run, steps + pass);
    var s := run[|steps|];
    if pass == [] {
      PassStart(s, q);
    } else {
      var before, last, k := pass[..|pass| - 1], pass[|pass| - 1], |steps| + |pass| - 1;
      assert (steps + pass)[..k] == steps + before && (steps + pass)[k] == last;
      RunPrefix(c, run, steps + pass);
      var shorter := run[..k + 1];
      assert shorter[|steps|] == s && shorter[k] == run[k];
      if last.RetrySection? {
        PassOutcome(c, shorter, steps, q, n - 1, before);
        RetryOnPass(c, shorter, steps + before, s, q, n - 1);
      } else {
        PassOutcome(c, shorter, steps, q, n, before);
        NoError(c, run, steps + pass, k + 1);
        MoreOnPass(c, s, q, n, run[k]);
      }
    }
  }

  lemma NoError(c: Config, run: seq<System>, steps: seq<Step>, n: nat)
    requires Agreed(c) && IsRun(c, run, steps) && n < |run|
    ensures !run[n].failed
  {
    hide IsRun;
    EndToEnd(c, run, steps, n, 0);
  }

  /** After a pass over the first `k` entries the next one can be retried, and decodes. */
  lemma HeadDecodes(c: Config, run: seq<System>, steps: seq<Step>, s: System, q: seq<Waiting>, k: nat)
      returns (fields: seq<Field>)
    requires Agreed(c) && IsRun(c, run, steps) && |run| == |steps| + 1
    requires k < |q| && q[k].ric <= |s.dec.log| && Passed(s, q, k, run[|steps|])
    ensures var d := run[|steps|];
      && At(d.sections, q[k].stream) != [] && Enabled(c, d, RetrySection(q[k].stream))
      && DecodeSection(c.book, d.dec, At(d.sections, q[k].stream)[0], c.maxCapacity, c.maxSize) == Decoded(fields)
  {
    hide IsRun, DecodeSection, CountOf, Enabled, Next, Lists;
    var d := run[|steps|];
    RetrySucceeds(c, run, steps, |steps|, q[k].stream);
    NoError(c, run, steps, |steps|);
    RetryEnabled(c, d, q[k].stream);
    fields := At(d.sent, q[k].stream)[|At(d.delivered, q[k].stream)|];
  }

  lemma RetryOnPass(c: Config, run: seq<System>, steps: seq<Step>, s: System, q: seq<Waiting>, k: nat)
    requires Agreed(c) && IsRun(c, run, steps) && |run| == |steps| + 1 && Lists(q, s.blocked)
    requires k < |q| && q[k].ric <= |s.dec.log| && Passed(s, q, k, run[|steps|])
    ensures Enabled(c, run[|steps|], RetrySection(q[k].stream))
    ensures Passed(s, q, k + 1, Next(c, run[|steps|], RetrySection(q[k].stream)))
  {
    hide IsRun, Enabled, Next, Lists, Passed, DecodeSection;
    var fields := HeadDecodes(c, run, steps, s, q, k);
    RetryEffect(c, run[|steps|], q[k].stream, fields);
    PassRetry(s, q, k, run[|steps|], Next(c, run[|steps|], RetrySection(q[k].stream)), fields);
  }

  lemma MoreOnPass(c: Config, s: System, q: seq<Waiting>, n: nat, mid: System)
    requires Agreed(c) && 0 < n <= |q| && Lists(q, s.blocked) && Passed(s, q, n, mid)
    requires Enabled(c, mid, DeliverSection(q[n - 1].stream)) && !Next(c, mid, DeliverSection(q[n - 1].stream)).failed
    ensures Passed(s, q, n, Next(c, mid, DeliverSection(q[n - 1].stream)))
  {
    hide Enabled, Next, Lists, Passed;
    DeliverEffect(c, mid, q[n - 1].stream);
    PassMore(s, q, n, mid, Next(c, mid, DeliverSection(q[n - 1].stream)));
  }

  lemma ListedLater(q: seq<Waiting>, n: nat, stream: nat)
    requires n <= |q| && Listed(q[n..], stream)
    ensures exists j :: n <= j < |q| && q[j].stream == stream
  {
    var i :| 0 <= i < |q[n..]| && q[n..][i].stream == stream;
    assert q[n + i] == q[n..][i];
  }

  /** The pass over exactly the entries whose count is reached, as `Unblockable` picks them: in
      the end every stream that waited for a reached count has delivered something, and no
      stream waits for a reached count. */
  lemma WholePass(c: Config, run: seq<System>, steps: seq<Step>, q: seq<Waiting>, n: nat, pass: seq<Step>)
    requires Agreed(c) && IsRun(c, run, steps + pass) && n <= |q| && |steps| < |run|
    requires Lists(q, run[|steps|].blocked) && IsPass(q, n, pass)
    requires forall i :: 0 <= i < |q| ==> (q[i].ric <= |run[|steps|].dec.log| <==> i < n)
    ensures |run| == |steps| + |pass| + 1
    ensures var s, after := run[|steps|], run[|steps| + |pass|];
      && after.dec == s.dec
      && (forall stream :: stream in after.blocked ==> after.blocked[stream] > |after.dec.log|)
      && (forall stream :: stream in s.blocked ==>
            if s.blocked[stream] <= |s.dec.log| then |At(after.delivered, stream)| > |At(s.delivered, stream)|
            else stream in after.blocked && after.blocked[stream] == s.blocked[stream])
  {
    hide IsRun, IsPass, Agreed;
    PassOutcome(c, run, steps, q, n, pass);
    var s, after := run[|steps|], run[|steps| + |pass|];
    forall stream | stream in after.blocked
      ensures after.blocked[stream] > |after.dec.log|
    {
      if after.blocked[stream] <= |s.dec.log| {
        ListedLater(q, n, stream);
      }
    }
    forall stream | stream in s.blocked
      ensures if s.blocked[stream] <= |s.dec.log| then |At(after.delivered, stream)| > |At(s.delivered, stream)|
              else stream in after.blocked && after.blocked[stream] == s.blocked[stream]
    {
      var i :| 0 <= i < |q| && q[i] == Waiting(s.blocked[stream], stream);
    }
  }

  /** A pass that stops after `k` of the `n` picked entries, because what one of the sections says
      is refused: all `n` have left the set, so it is complete if and only if `k` is `n`, and each
      entry that was not reached leaves its stream blocked on a reached count, and listed no more. */
  lemma StoppedPass(c: Config, run: seq<System>, steps: seq<Step>, q: seq<Waiting>, n: nat, k: nat, pass: seq<Step>)
    requires Agreed(c) && IsRun(c, run, steps + pass) && k <= n <= |q| && |steps| < |run|
    requires Lists(q, run[|steps|].blocked) && IsPass(q, k, pass)
    requires forall i :: 0 <= i < |q| ==> (q[i].ric <= |run[|steps|].dec.log| <==> i < n)
    ensures |run| == |steps| + |pass| + 1
    ensures var after := run[|steps| + |pass|];
      && ((forall stream :: stream in after.blocked ==> after.blocked[stream] > |after.dec.log|) <==> k == n)
      && (forall i :: k <= i < n ==>
            && q[i].stream in after.blocked && after.blocked[q[i].stream] <= |after.dec.log|
            && !Listed(q[n..], q[i].stream))
  {
    hide IsRun, IsPass, Agreed;
    PassOutcome(c, run, steps, q, k, pass);
    if k == n {
      WholePass(c, run, steps, q, n, pass);
    } else {
      assert q[k].ric <= |run[|steps|].dec.log|;
    }
    forall i | k <= i < n
      ensures !Listed(q[n..], q[i].stream)
    {
      if Listed(q[n..], q[i].stream) {
        ListedLater(q, n, q[i].stream);
      }
    }
  }

  /** Retries alone are such a pass, and `RetryAll` shows that they can always be made. */
  lemma {:induction false} RetriesArePass(q: seq<Waiting>, n: nat)
    requires n <= |q|
    ensures IsPass(q, n, Retries(q[..n]))
  {
    if n > 0 {
      RetriesArePass(q, n - 1);
      var pass := Retries(q[..n]);
      assert pass[..n - 1] == Retries(q[..n - 1]);
    }
  }
}

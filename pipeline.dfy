/**
 * The pipeline of the binary, flattened to one thread: the walker announces
 * one `Directory` task per walked entry and then `DiscoveryComplete`; the
 * receive loop hands each task to a worker, whose single `Empty` or `Parsed`
 * answer joins the end of the channel, and folds every message into the
 * progress reporter and the output.
 *
 * The channel is a sequence. In the flattened schedule the walker has sent
 * everything before the first message is received, and a task runs as soon
 * as it is dispatched.
 */
module Pipeline {
  import opened Wrappers
  import opened Processor
  import opened Sink
  import Progress

  /** The messages on the channel (the sender handle a `Directory` carries is left out). */
  datatype Work =
    | Directory(path: Path, index: nat)
    | Parsed(entry: ParsedFile, path: Path, index: nat)
    | Empty(index: nat)
    | DiscoveryComplete(count: nat)

  /** What the pipeline takes from its surroundings: the files, the classifier, SHA-1, `canonicalize`. */
  datatype Env = Env(
    files: Path -> Source,
    classify: seq<byte> -> ContentType,
    sha1Hex: seq<byte> -> Digest,
    canonicalize: Path -> Option<Path>)

  /** The outcome of `process` on the file at `path`. */
  function ProcessFile(env: Env, path: Path): Option<ParsedFile> {
    Expected(env.files(path), env.classify, env.sha1Hex)
  }

  // ---------------------------------------------------------------- walker

  /** The entries of the walk that are not errors, in walk order. */
  function WalkedPaths(walk: seq<Option<Path>>): (r: seq<Path>)
    ensures |r| <= |walk|
    ensures forall p :: p in r <==> Some(p) in walk
  {
    if walk == [] then []
    else
      var last := walk[|walk| - 1];
      assert walk == walk[..|walk| - 1] + [last];
      WalkedPaths(walk[..|walk| - 1]) + (if last.Some? then [last.value] else [])
  }

  /** A walk entry on its own: kept when it is not an error. */
  lemma WalkedOne(e: Option<Path>)
    ensures WalkedPaths([e]) == if e.Some? then [e.value] else []
  {
  }

  /** The filter keeps each entry once, in walk order: it distributes over concatenation. */
  lemma {:induction false} WalkedAppend(a: seq<Option<Path>>, b: seq<Option<Path>>)
    ensures WalkedPaths(a + b) == WalkedPaths(a) + WalkedPaths(b)
  {
    if b == [] {
      assert a + b == a;
    } else {
      assert (a + b)[..|a + b| - 1] == a + b[..|b| - 1];
      WalkedAppend(a, b[..|b| - 1]);
    }
  }

  /** The count `DiscoveryComplete` carries: the index of the last entry (0 when there is none). */
  function LastIndex(n: nat): nat {
    if n == 0 then 0 else n - 1
  }

  /** `start_iter`: one `Directory` per walked entry with indices 0, 1, 2, ..., then `DiscoveryComplete`. */
  method StartIter(walk: seq<Option<Path>>) returns (sent: seq<Work>)
    ensures var paths := WalkedPaths(walk);
      && |sent| == |paths| + 1
      && (forall i :: 0 <= i < |paths| ==> sent[i] == Directory(paths[i], i))
      && sent[|paths|] == DiscoveryComplete(if |paths| == 0 then 0 else |paths| - 1)
  {
    var entries := WalkedPaths(walk);
    var count := 0;
    sent := [];
    for index := 0 to |entries|
      invariant |sent| == index
      invariant forall i :: 0 <= i < index ==> sent[i] == Directory(entries[i], i)
      invariant count == LastIndex(index)
    {
      sent := sent + [Directory(entries[index], index)];
      count := index;
    }
    sent := sent + [DiscoveryComplete(count)];
  }

  // ---------------------------------------------------------------- worker

  /** The worker's answer to task `index`: `Empty` when processing failed, else `Parsed` with the same path. */
  function Worker(path: Path, index: nat, outcome: Option<ParsedFile>): (w: Work)
    ensures (w.Empty? || w.Parsed?) && w.index == index
    ensures w.Empty? <==> outcome.None?
    ensures w.Parsed? ==> w.path == path && w.entry == outcome.value
  {
    match outcome
    case None => Empty(index)
    case Some(entry) => Parsed(entry, path, index)
  }

  /** One worker answer per walked entry, in walk order. */
  function Results(paths: seq<Path>, env: Env): (r: seq<Work>)
    ensures |r| == |paths|
    ensures forall i :: 0 <= i < |paths| ==> r[i] == Worker(paths[i], i, ProcessFile(env, paths[i]))
  {
    seq(|paths|, i requires 0 <= i < |paths| => Worker(paths[i], i, ProcessFile(env, paths[i])))
  }

  // ------------------------------------------------ folds over a message sequence

  /** The answer a worker gives when this message is a task. */
  function Answer(msg: Work, env: Env): seq<Work> {
    if msg.Directory? then [Worker(msg.path, msg.index, ProcessFile(env, msg.path))] else []
  }

  /** The processed count's step for this message: one for each answer. */
  function Completes(msg: Work): nat {
    if msg.Empty? || msg.Parsed? then 1 else 0
  }

  function DirCount(msgs: seq<Work>): nat {
    if msgs == [] then 0
    else DirCount(msgs[..|msgs| - 1]) + (if msgs[|msgs| - 1].Directory? then 1 else 0)
  }

  /** The answers the workers give to the `Directory` tasks among `msgs`, in order. */
  function Tasks(msgs: seq<Work>, env: Env): seq<Work> {
    if msgs == [] then []
    else
      Tasks(msgs[..|msgs| - 1], env) + Answer(msgs[|msgs| - 1], env)
  }

  /** Number of answers (`Empty` or `Parsed`) among `msgs`. */
  function Completions(msgs: seq<Work>): nat {
    if msgs == [] then 0
    else Completions(msgs[..|msgs| - 1]) + Completes(msgs[|msgs| - 1])
  }

  /** Number of `Parsed` answers among `msgs`. */
  function Successes(msgs: seq<Work>): nat {
    if msgs == [] then 0
    else Successes(msgs[..|msgs| - 1]) + (if msgs[|msgs| - 1].Parsed? then 1 else 0)
  }

  /** The count of the last `DiscoveryComplete` among `msgs`. */
  function LastDiscovery(msgs: seq<Work>): Option<nat> {
    if msgs == [] then None
    else if msgs[|msgs| - 1].DiscoveryComplete? then Some(msgs[|msgs| - 1].count)
    else LastDiscovery(msgs[..|msgs| - 1])
  }

  /** The line written for one message: one for a `Parsed` whose line can be formed. */
  function LineOf(output: Output, msg: Work, env: Env): seq<string> {
    if msg.Parsed? then
      match PrintHash(output, msg.entry, msg.path, env.canonicalize)
      case Some(line) => [line]
      case None => []
    else []
  }

  /** The lines written for `msgs`, in order. */
  function Written(output: Output, msgs: seq<Work>, env: Env): seq<string> {
    if msgs == [] then []
    else Written(output, msgs[..|msgs| - 1], env) + LineOf(output, msgs[|msgs| - 1], env)
  }

  /** Handling this message panics: its line cannot be formed, or `str_content` rejects its type. */
  predicate Crashes(output: Output, msg: Work, env: Env) {
    msg.Parsed? &&
    (PrintHash(output, msg.entry, msg.path, env.canonicalize).None? || !HasStrContent(msg.entry.contentType))
  }

  /**
   * Only a `Parsed` message can panic. With an output file it panics exactly
   * for a UTF-32 type; on standard output also when `canonicalize` fails or
   * the canonical path is not under the working directory.
   */
  lemma CrashConditions(output: Output, msg: Work, env: Env)
    ensures !msg.Parsed? ==> !Crashes(output, msg, env)
    ensures msg.Parsed? && output.File? ==>
      (Crashes(output, msg, env) <==> !HasStrContent(msg.entry.contentType))
    ensures msg.Parsed? && output.Stdout? ==>
      (Crashes(output, msg, env) <==>
         || env.canonicalize(msg.path).None?
         || !(output.workingDir <= env.canonicalize(msg.path).value)
         || !HasStrContent(msg.entry.contentType))
  {
  }

  predicate NoCrash(output: Output, msgs: seq<Work>, env: Env) {
    forall j :: 0 <= j < |msgs| ==> !Crashes(output, msgs[j], env)
  }

  /** Without a panic, the loop writes exactly one line per `Parsed` answer and none for any other message. */
  lemma {:induction false} OneLinePerParsed(output: Output, msgs: seq<Work>, env: Env)
    requires NoCrash(output, msgs, env)
    ensures |Written(output, msgs, env)| == Successes(msgs)
  {
    if msgs != [] {
      var init := msgs[..|msgs| - 1];
      assert forall j :: 0 <= j < |init| ==> init[j] == msgs[j];
      OneLinePerParsed(output, init, env);
      assert !Crashes(output, msgs[|msgs| - 1], env);
    }
  }

  /** The presentation `pb` once the processed count is `count`: a bar follows the count. */
  function AtCount(pb: Progress.ProgressType, count: nat): Progress.ProgressType {
    if pb.Inc? then Progress.Inc(Progress.Bar(pb.bar.total, count)) else pb
  }

  /** Messages only workers send. */
  predicate Answers(msgs: seq<Work>) {
    forall j :: 0 <= j < |msgs| ==> msgs[j].Empty? || msgs[j].Parsed?
  }

  /** Messages only the walker sends. */
  predicate Announcements(msgs: seq<Work>) {
    forall j :: 0 <= j < |msgs| ==> msgs[j].Directory? || msgs[j].DiscoveryComplete?
  }

  lemma {:induction false} DirCountAppend(a: seq<Work>, b: seq<Work>)
    ensures DirCount(a + b) == DirCount(a) + DirCount(b)
  {
    if b == [] {
      assert a + b == a;
    } else {
      assert (a + b)[..|a + b| - 1] == a + b[..|b| - 1];
      DirCountAppend(a, b[..|b| - 1]);
    }
  }

  lemma {:induction false} TasksAppend(a: seq<Work>, b: seq<Work>, env: Env)
    ensures Tasks(a + b, env) == Tasks(a, env) + Tasks(b, env)
  {
    if b == [] {
      assert a + b == a;
    } else {
      assert (a + b)[..|a + b| - 1] == a + b[..|b| - 1];
      TasksAppend(a, b[..|b| - 1], env);
    }
  }

  /** Every task gets one answer, and answers are `Empty` or `Parsed`. */
  lemma {:induction false} TasksAnswers(msgs: seq<Work>, env: Env)
    ensures |Tasks(msgs, env)| == DirCount(msgs)
    ensures Answers(Tasks(msgs, env))
  {
    if msgs != [] {
      TasksAnswers(msgs[..|msgs| - 1], env);
    }
  }

  lemma {:induction false} CompletionsAppend(a: seq<Work>, b: seq<Work>)
    ensures Completions(a + b) == Completions(a) + Completions(b)
    ensures Successes(a + b) == Successes(a) + Successes(b)
  {
    if b == [] {
      assert a + b == a;
    } else {
      assert (a + b)[..|a + b| - 1] == a + b[..|b| - 1];
      CompletionsAppend(a, b[..|b| - 1]);
    }
  }

  lemma {:induction false} LastDiscoveryAppend(a: seq<Work>, b: seq<Work>)
    ensures LastDiscovery(a + b) == if LastDiscovery(b).Some? then LastDiscovery(b) else LastDiscovery(a)
  {
    if b == [] {
      assert a + b == a;
    } else {
      assert (a + b)[..|a + b| - 1] == a + b[..|b| - 1];
      LastDiscoveryAppend(a, b[..|b| - 1]);
    }
  }

  lemma {:induction false} WrittenAppend(a: seq<Work>, b: seq<Work>, output: Output, env: Env)
    ensures Written(output, a + b, env) == Written(output, a, env) + Written(output, b, env)
  {
    if b == [] {
      assert a + b == a;
    } else {
      assert (a + b)[..|a + b| - 1] == a + b[..|b| - 1];
      WrittenAppend(a, b[..|b| - 1], output, env);
    }
  }

  lemma {:induction false} AnswerFolds(b: seq<Work>, env: Env)
    requires Answers(b)
    ensures DirCount(b) == 0 && Tasks(b, env) == []
    ensures Completions(b) == |b| && LastDiscovery(b) == None
  {
    if b != [] {
      AnswerFolds(b[..|b| - 1], env);
    }
  }

  lemma {:induction false} SuccessesBound(s: seq<Work>)
    ensures Successes(s) <= Completions(s)
  {
    if s != [] {
      SuccessesBound(s[..|s| - 1]);
    }
  }

  lemma {:induction false} AnnouncementFolds(a: seq<Work>)
    requires Announcements(a)
    ensures Completions(a) == 0 && Successes(a) == 0
  {
    if a != [] {
      AnnouncementFolds(a[..|a| - 1]);
    }
  }

  lemma {:induction false} AnnouncementLines(a: seq<Work>, output: Output, env: Env)
    requires Announcements(a)
    ensures Written(output, a, env) == []
  {
    if a != [] {
      AnnouncementLines(a[..|a| - 1], output, env);
    }
  }

  lemma {:induction false} DirCountPrefix(s: seq<Work>, i: nat)
    requires i <= |s|
    ensures DirCount(s[..i]) <= DirCount(s)
  {
    if i < |s| {
      assert s[..|s| - 1][..i] == s[..i];
      DirCountPrefix(s[..|s| - 1], i);
    } else {
      assert s[..i] == s;
    }
  }

  /** The channel never holds more than the walker's messages and one answer per task among them. */
  lemma ChannelBound(initial: seq<Work>, chan: seq<Work>, i: nat, env: Env)
    requires i <= |chan|
    requires chan == initial + Tasks(chan[..i], env)
    ensures |chan| <= |initial| + DirCount(initial)
  {
    var t := Tasks(chan[..i], env);
    TasksAnswers(chan[..i], env);
    DirCountPrefix(chan, i);
    DirCountAppend(initial, t);
    AnswerFolds(t, env);
  }

  /** The counting folds over one more message. */
  lemma StepCounts(s: seq<Work>, i: nat)
    requires i < |s|
    ensures DirCount(s[..i + 1]) == DirCount(s[..i]) + (if s[i].Directory? then 1 else 0)
    ensures Completions(s[..i + 1]) == Completions(s[..i]) + Completes(s[i])
    ensures Successes(s[..i + 1]) == Successes(s[..i]) + (if s[i].Parsed? then 1 else 0)
    ensures LastDiscovery(s[..i + 1]) == if s[i].DiscoveryComplete? then Some(s[i].count) else LastDiscovery(s[..i])
  {
    assert s[..i + 1][..i] == s[..i];
  }

  /** The answers to the tasks in one more message. */
  lemma StepTasks(s: seq<Work>, i: nat, env: Env)
    requires i < |s|
    ensures Tasks(s[..i + 1], env) == Tasks(s[..i], env) + Answer(s[i], env)
  {
    assert s[..i + 1][..i] == s[..i];
  }

  /** The lines written for one more message. */
  lemma StepWritten(s: seq<Work>, i: nat, output: Output, env: Env)
    requires i < |s|
    ensures Written(output, s[..i + 1], env) == Written(output, s[..i], env) + LineOf(output, s[i], env)
  {
    assert s[..i + 1][..i] == s[..i];
  }

  // ---------------------------------------------------------------- receive loop

  /** The reporter's counters and presentation. */
  datatype Tally = Tally(count: nat, success: nat, pb: Progress.ProgressType)

  /** The reporter's tally as it stands. */
  function TallyOf(pb: Progress.Progress): Tally
    reads pb
  {
    Tally(pb.count, pb.success, pb.pb)
  }

  /** The tally after handling `msg`: answers count, `Parsed` ones succeed, `DiscoveryComplete` builds the bar when enabled. */
  function Next(t: Tally, enabled: bool, msg: Work): Tally {
    var count := t.count + Completes(msg);
    Tally(count, t.success + (if msg.Parsed? then 1 else 0),
          if msg.DiscoveryComplete? && enabled then Progress.Inc(Progress.Bar(msg.count, count)) else AtCount(t.pb, count))
  }

  /**
   * The tally after the messages `msgs`, from `start`: every answer counted,
   * every `Parsed` a success, and, once a `DiscoveryComplete` has arrived at
   * an enabled reporter, a bar of its count positioned at the processed count.
   */
  function After(start: Tally, enabled: bool, msgs: seq<Work>): Tally {
    var count := start.count + Completions(msgs);
    Tally(count, start.success + Successes(msgs),
          if enabled && LastDiscovery(msgs).Some? then Progress.Inc(Progress.Bar(LastDiscovery(msgs).value, count))
          else AtCount(start.pb, count))
  }

  lemma AfterStep(start: Tally, enabled: bool, s: seq<Work>, i: nat)
    requires i < |s|
    ensures After(start, enabled, s[..i + 1]) == Next(After(start, enabled, s[..i]), enabled, s[i])
  {
    StepCounts(s, i);
    var before := After(start, enabled, s[..i]);
    var count := before.count + Completes(s[i]);
    if !(s[i].DiscoveryComplete? && enabled) {
      assert AtCount(before.pb, count) == After(start, enabled, s[..i + 1]).pb;
    }
  }

  /**
   * One turn of the receive loop on `msg`: a `Directory` task runs `process`
   * and yields the worker's answer; `Empty` counts one file; `Parsed` writes
   * its line, then (unless `print_hash` or `str_content` panics) counts a
   * success; `DiscoveryComplete` builds the bar.
   */
  method Dispatch(pb: Progress.Progress, output: Output, msg: Work, env: Env)
    returns (answers: seq<Work>, written: seq<string>, crashed: bool)
    requires pb.Valid()
    modifies pb
    ensures pb.Valid() && pb.enabled == old(pb.enabled)
    ensures answers == Answer(msg, env)
    ensures written == LineOf(output, msg, env)
    ensures crashed == Crashes(output, msg, env)
    ensures TallyOf(pb) == if crashed then old(TallyOf(pb)) else Next(old(TallyOf(pb)), pb.enabled, msg)
  {
    answers, written, crashed := [], [], false;
    match msg
    case Directory(path, index) =>
      var outcome := Process(env.files(path), env.classify, env.sha1Hex);
      answers := [Worker(path, index, outcome)];
    case Empty(_) =>
      pb.Inc();
    case Parsed(entry, path, _) =>
      var line := PrintHash(output, entry, path, env.canonicalize);
      if line.None? {
        crashed := true;
        return;
      }
      written := [line.value];
      if !HasStrContent(entry.contentType) {
        crashed := true;
        return;
      }
      pb.IncSuccess();
    case DiscoveryComplete(count) =>
      pb.BuildBar(count);
  }

  /** The loop's bookkeeping of the channel: the walker's messages, then one answer per task handled so far. */
  ghost predicate ChannelState(initial: seq<Work>, queue: seq<Work>, i: nat, env: Env) {
    && i <= |queue| <= |initial| + DirCount(initial)
    && queue == initial + Tasks(queue[..i], env)
  }

  lemma ChannelStep(initial: seq<Work>, queue: seq<Work>, i: nat, env: Env)
    requires ChannelState(initial, queue, i, env) && i < |queue|
    ensures ChannelState(initial, queue + Answer(queue[i], env), i + 1, env)
  {
    var next := queue + Answer(queue[i], env);
    assert next == initial + Tasks(next[..i + 1], env) by {
      StepTasks(queue, i, env);
      assert next[..i + 1] == queue[..i + 1];
    }
    ChannelBound(initial, next, i + 1, env);
  }

  lemma NoCrashStep(output: Output, s: seq<Work>, i: nat, env: Env)
    requires i < |s| && NoCrash(output, s[..i], env) && !Crashes(output, s[i], env)
    ensures NoCrash(output, s[..i + 1], env)
  {
  }

  /**
   * The receive loop after handling the first `i` messages of `queue`
   * without a panic: the channel bookkeeping holds, and the lines and the
   * tally are the folds of the handled messages.
   */
  ghost predicate LoopState(initial: seq<Work>, queue: seq<Work>, i: nat, lines: seq<string>,
                            t: Tally, start: Tally, enabled: bool, output: Output, env: Env) {
    && ChannelState(initial, queue, i, env)
    && NoCrash(output, queue[..i], env)
    && lines == Written(output, queue[..i], env)
    && t == After(start, enabled, queue[..i])
  }

  lemma LoopStep(initial: seq<Work>, queue: seq<Work>, i: nat, lines: seq<string>,
                 t: Tally, start: Tally, enabled: bool, output: Output, env: Env)
    requires LoopState(initial, queue, i, lines, t, start, enabled, output, env)
    requires i < |queue| && !Crashes(output, queue[i], env)
    ensures LoopState(initial, queue + Answer(queue[i], env), i + 1, lines + LineOf(output, queue[i], env),
                      Next(t, enabled, queue[i]), start, enabled, output, env)
  {
    var next := queue + Answer(queue[i], env);
    StepWritten(queue, i, output, env);
    AfterStep(start, enabled, queue, i);
    NoCrashStep(output, queue, i, env);
    ChannelStep(initial, queue, i, env);
    assert next[..i + 1] == queue[..i + 1];
  }

  /**
   * What the receive loop has done when it stops: drained the channel, or
   * reached a panicking message whose line `last` is written before the panic.
   */
  lemma LoopResult(initial: seq<Work>, queue: seq<Work>, i: nat, crashed: bool, lines: seq<string>, last: seq<string>,
                   t: Tally, start: Tally, enabled: bool, output: Output, env: Env)
    requires LoopState(initial, queue, i, lines, t, start, enabled, output, env)
    requires !crashed ==> i == |queue| && last == []
    requires crashed ==> i < |queue| && Crashes(output, queue[i], env) && last == LineOf(output, queue[i], env)
    ensures LoopStopped(initial, queue, i, crashed, output, env)
    ensures !crashed ==> queue == initial + Tasks(initial, env)
    ensures lines + last == Written(output, queue[..i], env) + (if crashed then LineOf(output, queue[i], env) else [])
    ensures t == After(start, enabled, queue[..i])
  {
    if !crashed {
      assert queue[..i] == queue;
      LoopExit(initial, queue, env);
    }
  }

  /** A drained channel holds the walker's messages and then one answer per task among them. */
  lemma LoopExit(initial: seq<Work>, queue: seq<Work>, env: Env)
    requires queue == initial + Tasks(queue, env)
    ensures queue == initial + Tasks(initial, env)
  {
    TasksAnswers(queue, env);
    TasksAppend(initial, Tasks(queue, env), env);
    AnswerFolds(Tasks(queue, env), env);
  }

  /** The messages `start_iter` sends for the walked `paths`. */
  ghost predicate WalkerSent(paths: seq<Path>, sent: seq<Work>) {
    && |sent| == |paths| + 1
    && (forall i :: 0 <= i < |paths| ==> sent[i] == Directory(paths[i], i))
    && sent[|paths|] == DiscoveryComplete(LastIndex(|paths|))
  }

  /** How the receive loop left a channel that started with `sent`, as `ReceiveLoop` ensures. */
  ghost predicate LoopStopped(sent: seq<Work>, chan: seq<Work>, processed: nat, crashed: bool, output: Output, env: Env) {
    && processed <= |chan|
    && chan == sent + Tasks(chan[..processed], env)
    && (!crashed ==> processed == |chan|)
    && (crashed ==> processed < |chan| && Crashes(output, chan[processed], env))
    && NoCrash(output, chan[..processed], env)
  }

  /**
   * The receive loop over a channel that starts with `initial`; the answers
   * to tasks join the end of the channel. The loop ends when the channel is
   * drained, or at the first message whose handling panics.
   */
  method ReceiveLoop(pb: Progress.Progress, output: Output, initial: seq<Work>, env: Env)
    returns (lines: seq<string>, crashed: bool, ghost chan: seq<Work>, ghost processed: nat)
    requires pb.Valid()
    modifies pb
    ensures pb.Valid() && pb.enabled == old(pb.enabled)
    ensures LoopStopped(initial, chan, processed, crashed, output, env)
    ensures !crashed ==> chan == initial + Tasks(initial, env)
    ensures lines == Written(output, chan[..processed], env) + (if crashed then LineOf(output, chan[processed], env) else [])
    ensures TallyOf(pb) == After(old(TallyOf(pb)), pb.enabled, chan[..processed])
  {
    var queue := initial;
    lines := [];
    crashed := false;
    var i := 0;
    var last: seq<string> := [];
    ghost var start := TallyOf(pb);
    assert queue[..i] == [];
    while i < |queue|
      invariant i <= |queue| <= |initial| + DirCount(initial)
      invariant LoopState(initial, queue, i, lines, TallyOf(pb), start, pb.enabled, output, env)
      invariant pb.Valid() && pb.enabled == old(pb.enabled)
      decreases |initial| + DirCount(initial) - i
    {
      ghost var t := TallyOf(pb);
      var answers, written, stop := Dispatch(pb, output, queue[i], env);
      if stop {
        last := written;
        crashed := true;
        break;
      }
      LoopStep(initial, queue, i, lines, t, start, pb.enabled, output, env);
      lines := lines + written;
      queue := queue + answers;
      i := i + 1;
    }
    LoopResult(initial, queue, i, crashed, lines, last, TallyOf(pb), start, pb.enabled, output, env);
    lines := lines + last;
    chan, processed := queue, i;
  }

  // ---------------------------------------------------------------- the whole run

  /** The destination `main` chooses: the output file when one is given, else standard output. */
  function OutputFor(outFile: Option<Path>, workingDir: Path, env: Env): (r: Output)
    requires outFile.None? ==> env.canonicalize(workingDir).Some?
    ensures r.File? <==> outFile.Some?
    ensures r.Stdout? ==> env.canonicalize(workingDir) == Some(r.workingDir)
  {
    if outFile.Some? then File else Stdout(env.canonicalize(workingDir).value)
  }

  datatype RunResult = RunResult(lines: seq<string>, crashed: bool, tally: Tally, enabled: bool)

  /** Tasks for the first walked paths, in order, are answered by the first worker outcomes. */
  lemma {:induction false} TasksOfWalkPrefix(paths: seq<Path>, msgs: seq<Work>, env: Env)
    requires |msgs| <= |paths|
    requires forall i :: 0 <= i < |msgs| ==> msgs[i] == Directory(paths[i], i)
    ensures Tasks(msgs, env) == Results(paths, env)[..|msgs|]
  {
    if msgs != [] {
      var k := |msgs|;
      var r := Results(paths, env);
      assert Tasks(msgs[..k - 1], env) == r[..k - 1] by {
        TasksOfWalkPrefix(paths, msgs[..k - 1], env);
      }
      assert Answer(msgs[k - 1], env) == [r[k - 1]];
      assert r[..k] == r[..k - 1] + [r[k - 1]];
    }
  }

  /** The answers to the walker's tasks are the worker's outcomes for the walked paths, in walk order. */
  lemma TasksOfWalk(paths: seq<Path>, sent: seq<Work>, env: Env)
    requires |sent| == |paths| + 1
    requires forall i :: 0 <= i < |paths| ==> sent[i] == Directory(paths[i], i)
    requires sent[|paths|].DiscoveryComplete?
    ensures Tasks(sent, env) == Results(paths, env)
    ensures Announcements(sent)
    ensures LastDiscovery(sent) == Some(sent[|paths|].count)
  {
    var n := |paths|;
    assert sent[..n + 1] == sent;
    assert Tasks(sent[..n], env) == Results(paths, env) by {
      TasksOfWalkPrefix(paths, sent[..n], env);
      assert Results(paths, env)[..n] == Results(paths, env);
    }
    assert Tasks(sent, env) == Tasks(sent[..n], env) + Answer(sent[n], env) by {
      StepTasks(sent, n, env);
    }
    assert LastDiscovery(sent) == Some(sent[n].count) by {
      StepCounts(sent, n);
    }
  }

  /** The messages after the walker's are answers. */
  lemma LaterAnswers(sent: seq<Work>, chan: seq<Work>, processed: nat, env: Env)
    requires |sent| <= processed <= |chan|
    requires chan == sent + Tasks(chan[..processed], env)
    ensures Answers(chan[|sent|..processed])
  {
    var t := Tasks(chan[..processed], env);
    TasksAnswers(chan[..processed], env);
    assert chan[|sent|..processed] == t[..processed - |sent|];
  }

  /** Answers among the handled messages add no tasks: the tasks handled are the walker's. */
  lemma PrefixTasks(sent: seq<Work>, results: seq<Work>, chan: seq<Work>, processed: nat, env: Env)
    requires Tasks(sent, env) == results
    requires |sent| <= processed <= |chan|
    requires Answers(chan[|sent|..processed])
    requires chan[..|sent|] == sent
    ensures Tasks(chan[..processed], env) == results
  {
    var later := chan[|sent|..processed];
    assert chan[..processed] == sent + later;
    TasksAppend(sent, later, env);
    AnswerFolds(later, env);
  }

  /**
   * What the channel holds once the loop has handled at least the walker's
   * messages: those messages, then the answers for the walked paths.
   */
  lemma DrainedChannel(sent: seq<Work>, results: seq<Work>, chan: seq<Work>, processed: nat, env: Env)
    requires Tasks(sent, env) == results && Announcements(sent)
    requires |sent| <= processed <= |chan|
    requires chan == sent + Tasks(chan[..processed], env)
    ensures chan == sent + results
  {
    LaterAnswers(sent, chan, processed, env);
    PrefixTasks(sent, results, chan, processed, env);
  }

  /**
   * Where the receive loop stopped on the walker's messages: past all of
   * them, so that the channel holds them and then every walked entry's
   * answer, of which the first `processed - |sent|` were handled.
   */
  lemma LoopChannel(paths: seq<Path>, sent: seq<Work>, chan: seq<Work>, processed: nat, crashed: bool, output: Output, env: Env)
    requires |sent| == |paths| + 1
    requires forall i :: 0 <= i < |paths| ==> sent[i] == Directory(paths[i], i)
    requires sent[|paths|].DiscoveryComplete?
    requires processed <= |chan|
    requires chan == sent + Tasks(chan[..processed], env)
    requires !crashed ==> processed == |chan|
    requires crashed ==> processed < |chan| && Crashes(output, chan[processed], env)
    ensures |sent| <= processed
    ensures chan == sent + Results(paths, env)
    ensures chan[..processed] == sent + Results(paths, env)[..processed - |sent|]
  {
    TasksOfWalk(paths, sent, env);
    if crashed {
      assert chan[processed].Parsed?;
      assert forall j :: 0 <= j < |sent| ==> !chan[j].Parsed?;
    }
    DrainedChannel(sent, Results(paths, env), chan, processed, env);
  }

  /**
   * The tally once the walker's messages and the first `k` answers are
   * handled: `k` files counted, the parsed among them successes, and on an
   * enabled reporter a bar whose total is the walker's last index.
   */
  lemma TallyOverWalk(paths: seq<Path>, sent: seq<Work>, k: nat, start: Tally, enabled: bool, env: Env)
    requires Announcements(sent) && LastDiscovery(sent) == Some(LastIndex(|paths|))
    requires k <= |paths|
    ensures var t := After(start, enabled, sent + Results(paths, env)[..k]);
      && t.count == start.count + k
      && t.success == start.success + Successes(Results(paths, env)[..k])
      && t.success - start.success <= k
      && t.pb == if enabled then Progress.Inc(Progress.Bar(LastIndex(|paths|), t.count)) else AtCount(start.pb, t.count)
  {
    var answered := Results(paths, env)[..k];
    AnnouncementFolds(sent);
    assert Answers(answered);
    AnswerFolds(answered, env);
    SuccessesBound(answered);
    CompletionsAppend(sent, answered);
    LastDiscoveryAppend(sent, answered);
  }

  /** The loop panics exactly when some walked entry's answer panics. */
  lemma CrashOverWalk(sent: seq<Work>, results: seq<Work>, chan: seq<Work>, processed: nat, crashed: bool, output: Output, env: Env)
    requires |sent| <= processed <= |chan| && chan == sent + results
    requires !crashed ==> processed == |chan|
    requires crashed ==> processed < |chan| && Crashes(output, chan[processed], env)
    requires NoCrash(output, chan[..processed], env)
    ensures crashed <==> !NoCrash(output, results, env)
  {
    if crashed {
      assert results[processed - |sent|] == chan[processed];
    } else {
      assert forall j :: 0 <= j < |results| ==> results[j] == chan[..processed][|sent| + j];
    }
  }

  /** A drained loop has written the lines of the walked entries' answers. */
  lemma LinesOverWalk(sent: seq<Work>, results: seq<Work>, output: Output, env: Env)
    requires Announcements(sent)
    ensures Written(output, sent + results, env) == Written(output, results, env)
  {
    AnnouncementLines(sent, output, env);
    WrittenAppend(sent, results, output, env);
  }

  /** The run panics exactly when some walked entry's line panics. */
  lemma RunCrash(paths: seq<Path>, sent: seq<Work>, chan: seq<Work>, processed: nat, crashed: bool, output: Output, env: Env)
    requires WalkerSent(paths, sent) && LoopStopped(sent, chan, processed, crashed, output, env)
    ensures crashed <==> !NoCrash(output, Results(paths, env), env)
  {
    LoopChannel(paths, sent, chan, processed, crashed, output, env);
    CrashOverWalk(sent, Results(paths, env), chan, processed, crashed, output, env);
  }

  /**
   * From a fresh tally, the run counts every handled answer once and makes
   * a success of every parsed one; unless it panics, that is every walked
   * entry. An enabled reporter ends on a bar whose total is the walker's
   * last index, positioned at the count.
   */
  lemma RunTally(paths: seq<Path>, sent: seq<Work>, chan: seq<Work>, processed: nat, crashed: bool,
                 start: Tally, t: Tally, enabled: bool, output: Output, env: Env)
    requires WalkerSent(paths, sent) && LoopStopped(sent, chan, processed, crashed, output, env)
    requires t == After(start, enabled, chan[..processed])
    requires start.count == 0 && start.success == 0
    ensures t.success <= t.count <= |paths|
    ensures !crashed ==> t.count == |paths| && t.success == Successes(Results(paths, env))
    ensures crashed ==> t.count < |paths|
    ensures t.pb == if enabled then Progress.Inc(Progress.Bar(LastIndex(|paths|), t.count)) else AtCount(start.pb, t.count)
  {
    var results := Results(paths, env);
    LoopChannel(paths, sent, chan, processed, crashed, output, env);
    TasksOfWalk(paths, sent, env);
    var k := processed - |sent|;
    assert k <= |paths| && (crashed ==> k < |paths|) by {
      assert |chan| == |sent| + |results|;
    }
    assert t == After(start, enabled, sent + results[..k]);
    TallyOverWalk(paths, sent, k, start, enabled, env);
    if !crashed {
      assert results[..k] == results;
    }
  }

  /** A run that does not panic writes the lines of the walked entries' answers, in walk order. */
  lemma RunLines(paths: seq<Path>, sent: seq<Work>, chan: seq<Work>, processed: nat, lines: seq<string>, output: Output, env: Env)
    requires WalkerSent(paths, sent) && LoopStopped(sent, chan, processed, false, output, env)
    requires lines == Written(output, chan[..processed], env)
    ensures lines == Written(output, Results(paths, env), env)
  {
    LoopChannel(paths, sent, chan, processed, false, output, env);
    TasksOfWalk(paths, sent, env);
    assert chan[..processed] == chan;
    LinesOverWalk(sent, Results(paths, env), output, env);
  }

  /**
   * The whole run of `main`, without the index: the reporter is enabled only
   * for an output file and shows the spinner, the walker's messages are
   * received, and each task's answer is folded in. Unless a line panics,
   * every walked entry is counted once and every parsed one is a success
   * with one line, in walk order; standard output never shows progress, and
   * an output file ends with a bar whose total is the walker's last index
   * while its position is the processed count.
   */
  method Run(outFile: Option<Path>, workingDir: Path, walk: seq<Option<Path>>, env: Env) returns (res: RunResult)
    requires outFile.None? ==> env.canonicalize(workingDir).Some?
    ensures var paths := WalkedPaths(walk);
      var output := OutputFor(outFile, workingDir, env);
      var results := Results(paths, env);
      && res.enabled == outFile.Some?
      && (res.crashed <==> !NoCrash(output, results, env))
      && res.tally.success <= res.tally.count <= |paths|
      && (!res.crashed ==> res.tally.count == |paths|)
      && (res.crashed ==> res.tally.count < |paths|)
      && (!res.crashed ==> res.tally.success == Successes(results))
      && (!res.crashed ==> res.lines == Written(output, results, env))
      && (outFile.None? ==> res.tally.pb == Progress.None)
      && (outFile.Some? ==> res.tally.pb == Progress.Inc(Progress.Bar(LastIndex(|paths|), res.tally.count)))
  {
    var pb := new Progress.Progress();
    var output: Output;
    if outFile.Some? {
      pb.SetEnabled(true);
      output := File;
    } else {
      output := Stdout(env.canonicalize(workingDir).value);
    }
    pb.BuildStatus();
    var sent := StartIter(walk);
    ghost var start := TallyOf(pb);
    var lines, crashed;
    ghost var chan, processed;
    lines, crashed, chan, processed := ReceiveLoop(pb, output, sent, env);
    res := RunResult(lines, crashed, TallyOf(pb), pb.enabled);

    ghost var paths := WalkedPaths(walk);
    RunCrash(paths, sent, chan, processed, crashed, output, env);
    RunTally(paths, sent, chan, processed, crashed, start, res.tally, pb.enabled, output, env);
    if !crashed {
      RunLines(paths, sent, chan, processed, lines, output, env);
    }
  }
}

# hashy, modelled in Dafny

hashy walks the working directory and tries to read every entry the walk
yields. Each entry it can open and read to the end is hashed with SHA-1,
its content type is classified from the first kilobyte, and, unless the
run panics first, one result line is written for it. Entries whose open or read fails, such as the
directories the walk yields, are only counted. The line goes to an output file when one is given,
with a progress bar on standard error. Otherwise it goes to standard
output, with the path made relative to the working directory.

The model covers three parts:

- **Processor** (`processor.dfy`): the per-file read loop `process` as an
  imperative loop over a script of read outcomes. It is proved equal to a
  declarative reference (`Expected`), and lemmas describe that reference.
  Also `ParsedFile` and `str_content`.
- **Progress** (`progress.dfy`): the progress reporter as a class. Its
  fields `count`, `success`, `enabled` and the presentation (`None`, `Tick`,
  or `Inc` of a bar) change through `set_enabled`, `build_status`,
  `build_bar`, `inc` and `inc_success`.
- **Sink and Pipeline** (`sink.dfy`, `pipeline.dfy`): from `main.rs`:
  - the `Work` messages;
  - the walker `start_iter`;
  - the worker closure;
  - the receive loop's dispatch;
  - `print_hash` with its line formats and `strip_prefix`;
  - the whole run of `main` without the search index.

  The threads and the channel are flattened into one schedule. The walker
  sends all its messages before the first receive. A `Directory` task runs
  when it is dispatched, and its answer goes to the end of the channel.
  `Pipeline.Run` proves what comes out of that schedule:
  - unless the run panics, every walked entry is counted once;
  - unless the run panics, every parsed entry is a success and writes one
    line, in walk order;
  - a run that panics has counted fewer entries than were walked;
  - the progress bar is used only with an output file;
  - a run panics exactly when some entry's line cannot be formed or its
    type is UTF-32.

External effects are parameters:
- the SHA-1 hex digest (`sha1Hex`);
- `content_inspector::inspect` (`classify`);
- `str::from_utf8` (`fromUtf8`);
- `Path::canonicalize` (`canonicalize`);
- the files (`files`, a read script per path);
- the directory walk (a sequence of entries, where `None` is a walk error
  that `filter_map` drops).

A script that runs out reads as end of file. Paths are sequences of
components below the root.

Where the code's behaviour is surprising, the model follows the code as written:
- The `DiscoveryComplete` message carries the index of the last walked
  entry (`count = index` in the loop), not the number of entries. So with
  `n >= 1` entries the final bar has total `n - 1` while its position
  reaches `n`. `Pipeline.StartIter` and `Pipeline.Run` state this.
- The walker does not skip directories or the output file itself. Every
  entry the walk yields becomes a task.
- A path outside the working directory on standard output is a panic
  (`expect`), not a fallback. The model records it as `crashed`.

## Model

| member | source | states |
|---|---|---|
| Processor.Process | src/processor.rs:42-80 | The read loop's result equals the reference outcome `Expected`: none when the open fails or a read fails before end of file; otherwise the digest of all bytes read, the type of the first chunk, and the bytes unless the type is binary. |
| Processor.ReadToEnd | src/processor.rs:52-75 | For a file read to its end in non-empty chunks: the hash is SHA-1 of exactly the chunks concatenated in read order. The type is absent exactly when there are no chunks, and otherwise is `classify` of the first chunk's first `min(n,1024)` bytes. The content is all the bytes unless the type is BINARY, then empty. Outcomes after end of file are never read. |
| Processor.ProcessFails | src/processor.rs:43-48 | A failed open gives `None`. A read error gives `None` even after any number of successful chunks (line 77). |
| Processor.ContentTypeFixed | src/processor.rs:65-69 | The type is decided once, from the first chunk. Two files whose first chunks agree on the first 1024 bytes get the same type, whatever their later chunks hold. |
| Processor.Sniff | src/processor.rs:66-68 | The classified bytes are the prefix of the chunk of length `min(n, 1024)`. |
| Processor.EndIndex | src/processor.rs:55-57 | The loop ends at the first read that delivers no data (end of file or error). Every earlier read delivered data. |
| Processor.StrContent | src/processor.rs:28-39 | `None` exactly when the type is absent or BINARY. For the UTF-8 and UTF-16 types, the UTF-8 decoding of the kept bytes, or `""` when decoding fails. Requires a type other than UTF-32, where the source panics. |
| Processor.TextView | src/processor.rs:28-39 | For a file read to its end, the text view is none for an empty or binary file. Otherwise it is the decoding of all its bytes, or `""`. |
| Progress.Stepped | src/progress.rs:66-81 | A bar step advances a determinate bar's position by one and keeps its total. A spinner or no presentation is left as it is. |
| Progress.Progress.constructor | src/progress.rs:20-28 | A new reporter has count 0, success 0, is disabled, and has no presentation. |
| Progress.Progress.SetEnabled | src/progress.rs:30-32 | Sets `enabled` and changes nothing else. |
| Progress.Progress.BuildStatus | src/progress.rs:34-47 | An enabled reporter switches to the spinner. A disabled one changes nothing. |
| Progress.Progress.BuildBar | src/progress.rs:49-61 | An enabled reporter switches to a bar of the given total, positioned at the current count. A disabled one changes nothing. |
| Progress.Progress.Inc | src/progress.rs:63-82 | Count grows by exactly one, success is unchanged, and a bar advances by one. Keeps `success <= count` and keeps the bar's position equal to the count. |
| Progress.Progress.IncSuccess | src/progress.rs:84-87 | Count and success both grow by one, so `success <= count` is preserved. |
| Sink.StripPrefix | src/main.rs:189-194 | The relative path exists exactly when the working directory is a component-wise prefix of the absolute path. The working directory followed by it gives back the absolute path. |
| Sink.StripJoined | src/main.rs:192-194 | Stripping a prefix undoes prepending it. |
| Sink.Label | src/main.rs:172-175 | The type column is `"EMPTY"` for no type and otherwise the variant's name. It reads back to the same type and holds no comma or space. |
| Sink.SplitRecord | src/main.rs:178-202 | Splitting a line at its first two separators gives fields the separator does not occur in, and they reassemble the line. |
| Sink.RecordRoundTrip | src/main.rs:178-202 | A line whose first two fields contain no separator splits back into exactly its three fields. |
| Sink.PrintHash | src/main.rs:171-205 | A line always exists for an output file. On standard output it exists exactly when `canonicalize` succeeds and the working directory is a prefix of the result; otherwise the source panics. `Sink.PrintHashFields` states the line's fields. |
| Sink.PrintHashFields | src/main.rs:171-205 | A file line always exists and splits at commas into digest, type label and displayed path. A standard-output line exists exactly when `canonicalize` succeeds and the working directory is a prefix of the result. It then splits at spaces into digest, label and relative path, and the working directory plus that path is the canonical path. |
| Pipeline.WalkedPaths | src/main.rs:212-214 | The walked entries are exactly the non-error entries of the walk, and there are no more of them than walk entries. |
| Pipeline.WalkedOne | src/main.rs:212-214 | A single walk entry is kept exactly when it is not an error. |
| Pipeline.WalkedAppend | src/main.rs:212-214 | The filter distributes over concatenation, so it keeps every non-error entry once, in walk order. |
| Pipeline.StartIter | src/main.rs:207-234 | Sends one `Directory` per walked entry, in walk order, with indices 0, 1, 2, …. Then exactly one `DiscoveryComplete`, whose count is the last index (`n - 1`, or 0 for no entries). |
| Pipeline.OutputFor | src/main.rs:74-86 | The output is a file exactly when an output path is given. Otherwise it is standard output with the canonical working directory. |
| Pipeline.CrashConditions | src/main.rs:130-134 | Only a `Parsed` message panics. With an output file it panics exactly for a UTF-32 type (in `str_content`). On standard output it also panics when `canonicalize` fails or the canonical path is not under the working directory (in `print_hash`). |
| Pipeline.Worker | src/main.rs:110-121 | Exactly one answer per task, with the task's index. `Empty` exactly when `process` gives `None`, otherwise `Parsed` with the same path and the parsed file. |
| Pipeline.Results | src/main.rs:110-121 | One worker answer per walked entry, in walk order, each the worker's answer for that entry's path and index. |
| Pipeline.TasksAnswers | src/main.rs:109-123 | The tasks in a message sequence get exactly as many answers as there are `Directory` tasks, and every answer is `Empty` or `Parsed`. |
| Pipeline.Dispatch | src/main.rs:108-143 | One receive-loop turn. A task yields the worker's answer. `Empty` counts a file. `Parsed` writes its line and counts a success. `DiscoveryComplete` builds the bar. Handling panics exactly when the line cannot be formed or `str_content` rejects the type, and a panic leaves the tally unchanged. |
| Pipeline.ReceiveLoop | src/main.rs:107-144 | The channel is the walker's messages followed by the answers to the tasks handled so far. The loop drains the channel or stops at the first panicking message. Its lines, count and success are the folds of the handled messages, and so is the bar, built from the last `DiscoveryComplete`. |
| Pipeline.OneLinePerParsed | src/main.rs:124-141 | Without a panic, exactly one line is written per `Parsed` answer and none for `Empty`, `Directory` or `DiscoveryComplete`. |
| Pipeline.SuccessesBound | src/main.rs:124-141 | Successes never exceed processed answers. |
| Pipeline.TasksOfWalk | src/main.rs:218-230 | The answers to the walker's messages are the worker outcomes for the walked entries, in walk order. The walker sends only tasks and `DiscoveryComplete`, and the last count it announces is its final count. |
| Pipeline.TallyOverWalk | src/main.rs:124-142 | After the walker's messages and the first `k` answers: count has grown by `k` and success by the parsed answers among them. An enabled reporter shows a bar whose total is the last index, positioned at the count. |
| Pipeline.RunCrash | src/main.rs:124-141 | The run over the walker's messages panics exactly when some walked entry's line cannot be formed or its type is UTF-32. |
| Pipeline.RunTally | src/main.rs:124-142 | From a fresh tally: `success <= count <= n`, and `count < n` when the run panics. Without a panic, count is `n` and success is the number of parsed entries. An enabled reporter ends on a bar of total `LastIndex(n)` positioned at the count. |
| Pipeline.RunLines | src/main.rs:124-141 | A run that does not panic writes exactly the lines of the walked entries' answers, in walk order. |
| Pipeline.Run | src/main.rs:60-144 | Progress is enabled exactly when an output file is given. The run panics exactly when some walked entry panics. `success <= count <= n`, and `count < n` for a panicking run. Without a panic, count is `n`, success is the number of parsed entries, and the lines are theirs in walk order. On standard output the presentation stays none. With an output file it ends as a bar of total `LastIndex(n)` positioned at the count. |

## Left out

- The tantivy index (schema, writer, documents, commit, the query and printing its hits). It is foreign library code with no logic of its own. `str_content` is kept because the loop calls it and its UTF-32 panic stops the run.
- `cli.rs`, `handle_args` and the `hs` binary: argument parsing through clap.
- Threads, the pool and the channels. Message traffic is one FIFO schedule, not interleavings. Other interleavings reorder answers and can therefore reorder the output lines. They can also let a panicking `Parsed` answer arrive before `DiscoveryComplete`, so that a panicking run with an output file ends on the spinner rather than the bar. That is not modelled.
- SHA-1, hex rendering of the digest, content inspection and UTF-8 decoding. They are parameters: the digest is any 40-character lowercase hex string, and the decoder is any function.
- The filesystem and walkdir traversal. Files are read scripts, the walk is a sequence of entries, and `canonicalize` is a parameter.
- `File::create` of the output file and its failure. `current_dir`/`canonicalize` of the working directory is a precondition of `Pipeline.Run`. Write errors on the lines and the buffering and newlines of `writeln!` are left out too; a line is its text.
- pbr rendering, and the spinner's message with the pool statistics (`queued_count`, `active_count`, `max_count`). The presentation is reduced to none, spinner, or a bar's total and position.
- The sender handle carried by `Work::Directory`.
- Path rendering: path components are Unicode strings here, while `path.display()` (src/main.rs:183 and 201) renders a name that is not valid UTF-8 lossily. Such names cannot be expressed in the model.
- `ParsedFile::new` and its getters are the datatype's constructor and fields.
- Progress.Progress.Inc: `count` and `success` are unbounded, while the source's are `u64`. Overflow would need 2^64 files.
- Pipeline.StartIter: `count as u64` is the identity here, for the same reason.

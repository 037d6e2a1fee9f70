# Job worker core: progress extraction, remote locking, event envelope, indexer invocation

This project models, in Dafny, four sequential pieces of a worker that runs
a forensic indexer (IPED) one job at a time:

- **Progress extraction** (`progress.go`). `progress(ev)` searches the text of a
  `progress` event for the leftmost match of `Processando ([0-9]+)/([0-9]+)`.
  It converts both groups with `strconv.Atoi` and returns `(processed, found, ok)`.
  Any other event, a text without a match, and a failed conversion all give `(0, 0, false)`.
- **Remote locker** (`remoteLocker.go`). It is a mutex plus a recorded evidence path.
  `Lock(p)` takes the mutex, records `p`, and announces a `LOCK` event to the lock service.
  If that send fails, the record is cleared again. `Unlock()` announces `UNLOCK` for the
  recorded path, then always clears the record and releases the mutex.
  The readiness handlers (`server.go`, `main.go`) answer "not ready" while a path is recorded.
- **Event envelope** (`event.go`). This covers the `event` and `eventPayload` records and the
  JSON layout their struct tags give them. It also covers the status rule of `sendEvent`, and
  the tee writer `eventWriter`. That writer returns its inner writer's result unchanged, and
  enqueues a `progress` event only when the inner write fails.
- **Invocation** (`runIped.go`). `assertEnv` is fatal when a variable is unset or empty.
  An empty jar path is defaulted from `IPEDJAR`, and an empty heap size from `MEMORY`.
  The `java` command line always has the same eleven arguments.

Files: `wrappers.dfy` (Option, Result), `events.dfy` (module `Events`),
`progress.dfy` (module `Progress`), `locker.dfy` (module `Locker`),
`invocation.dfy` (module `Invocation`).

How things are represented:

- A Go string is a Dafny `string` where each character holds one byte.
  `Events.BytesToString` is Go's `string(p)`. The pattern is plain ASCII, so matching
  on bytes finds the same leftmost match as matching on UTF-8 text.
- The regular expression appears twice. Once as the language it denotes:
  `MatchAt`, `Greedy` (the second group is not followed by a digit) and `NoMatchBefore`.
  Once as a search: `DigitRun`, `PatternAt`, `FindFrom`, `FindSubmatch`.
  Lemmas prove that the search returns the leftmost greedy match of the language.
- `strconv.Atoi` follows `ParseInt(s, 10, 0)` on a 64-bit platform: an optional sign, a
  digit loop that fails with a range error past `uint64`, then the `int` range check.
- What an HTTP post returns (`PostOutcome`: a transport error or a status code) is a
  parameter. So is what the inner writer returns (`WriteOutcome`). So is the process
  environment (a map).
- The mutex is the ghost flag `held`. Blocking on a held mutex becomes the precondition
  `!held` of `Lock`. `Unlock` requires `held`, because unlocking an unlocked `sync.Mutex`
  is a fatal error. The ghost sequence `sent` logs every event handed to `sendEvent`
  and the URL it went to.
- The `events` channel of `eventWriter` is a sequence of the events whose sends `Write`
  has started, in the order of the `Write` calls.
- The command line has a partner: `ReadCommand`, a reader for this command's shape.
  Options come before `-jar`, and the last `-Xmx` option sets the heap. The jar follows
  `-jar`. After it, `-d` and `-o` each take the next argument, and `--` words are flags;
  any other indexer option (such as `-profile`) makes it fail.

Points where the code's behaviour is easy to misread:

- On a failed `Lock` the mutex stays taken: `remoteLocker.go:23-26` clears the record
  but has no unlock.
- `sendEvent` accepts only status 200 (`event.go:56`), so 201 and 204 are errors too.
- `eventWriter.Write` produces an event only when the inner write fails (`event.go:30`).
  It does not scan successful writes for progress lines.
- A `Processando P/F` embedded in other text is read as `(P, F, true)` only under the
  conditions `ProgressInNoise` spells out (`progress.go:11-23`): no earlier match, a
  second group not followed by a digit, and both values within `int`.
- `runIped.go` takes no profile, no additional arguments and no extra sources. It sets
  no working directory, and `-d` gets the evidence path as given (`runIped.go:57-65`).

## Model

| member | source | states |
|---|---|---|
| `Events.BytesToString` | event.go:35 | `string(p)` keeps the length and every byte of `p`, in order |
| `Events.PayloadToJson` | event.go:16-19 | the payload object always holds `evidencePath`; it holds `progress` exactly when that text is non-empty; it has no other member |
| `Events.EventToJson` | event.go:11-14 | the envelope has exactly the two members `type` and `payload`, in that order, and `type` carries the event's type |
| `Events.EnvelopeRoundTrip` | event.go:11-19 | for text that is valid UTF-8, decoding the envelope gives the event back, so leaving out an empty `progress` loses nothing |
| `Events.SendEvent` | event.go:45-61 | a transport error is returned as is; after a response, the send fails exactly when the status is not 200, with that status |
| `Events.NoContentIsAnError` | event.go:56-59 | statuses 204 and 201 both fail the send, since only 200 is accepted |
| `Events.FailedWriteEvent` | event.go:31-37 | the enqueued event has type `progress` and the writer's evidence path; its text holds exactly the first `n` bytes of `p` |
| `Events.EventWriter.constructor` | event.go:21-26 | a new writer has the given URL and evidence path and an empty channel |
| `Events.EventWriter.Write` | event.go:28-43 | returns the inner writer's count and error unchanged; a successful inner write enqueues nothing; a failed one enqueues exactly the event for `p[:n]` |
| `Progress.DigitRun` | progress.go:9 | the run of digits at `k` is as long as possible: all digits, then the end of the text or a non-digit |
| `Progress.FindFrom` | progress.go:11 | returns the leftmost matching position at or after `i`; returns none only when no position matches |
| `Progress.Progress` | progress.go:8-26 | any event type other than `progress` gives `(0, 0, false)`; whenever `ok` is false, both counts are 0 |
| `Progress.ParseUintDigits` | progress.go:15-22 | specifies `Progress.ParseUint` (the digit loop of Go's `strconv.ParseUint`): over digits only, it gives their decimal value, or a range error once that value passes `uint64` |
| `Progress.AtoiDigits` | progress.go:15-22 | specifies `Progress.Atoi` (Go's `strconv.Atoi`): `Atoi` of a non-empty digit string is its decimal value, or a range error when that value exceeds `int` |
| `Progress.ShortDigitsFit` | progress.go:15 | up to 18 digits always fit in an `int`, so only longer counts can fail to convert |
| `Progress.LongDigitsOverflow` | progress.go:15-17 | 20 or more digits with a non-zero leading digit never fit in an `int` |
| `Progress.MatchAtChars` | progress.go:9 | a match at `i` fixes the keyword, both groups and the `/` at their places in the text |
| `Progress.MatchAtIsPattern` | progress.go:9-11 | every match of the language is found by the search, with the same first group and a second group no longer than the maximal run |
| `Progress.PatternIsGreedy` | progress.go:9-11 | what the search reports at `i` is a greedy match of the language |
| `Progress.GreedyIsPattern` | progress.go:9-11 | a greedy match at `i` has exactly the groups the search reports there |
| `Progress.NoMatchAtMismatch` | progress.go:9 | no match starts where the text differs from `Processando ` |
| `Progress.NoMatchWithoutP` | progress.go:9 | no match starts in a stretch of text without a `P` |
| `Progress.FindSubmatchSpec` | progress.go:11-14 | specifies `Progress.FindSubmatch` (Go's `regexp.FindSubmatch`): the result is empty exactly when there is no match anywhere; otherwise it is the whole match and its two groups, taken from the leftmost greedy match |
| `Progress.FindSubmatchAt` | progress.go:11 | specifies `Progress.FindSubmatch` at a match: at the leftmost greedy match, it returns that match and exactly its groups |
| `Progress.ProgressAtLeftmostMatch` | progress.go:10-23 | at the leftmost match, the result is the two decimal values, or `(0, 0, false)` if either value exceeds `int`; no later match is tried |
| `Progress.ProgressWithoutMatch` | progress.go:11-14 | a text with no match gives `(0, 0, false)` |
| `Progress.ProgressSound` | progress.go:8-26 | `ok` implies a `progress` event, non-negative counts, and the decimal values of the groups of the leftmost greedy match |
| `Progress.ProgressInNoise` | progress.go:9-11 | surrounding text is ignored: with no match in the prefix and no digit after the second group, the groups' values are returned |
| `Progress.ExampleSimple` | progress_test.go:12-22 | `"Processando 1/2"` gives `(1, 2, true)` |
| `Progress.ExampleNonDigit` | progress_test.go:23-33 | `"Processando x/2"` gives `(0, 0, false)` |
| `Progress.LogPrefixHasNoMatch` | progress_test.go:49 | no match starts in the console line before its progress text, although that text contains `ProgressConsole` |
| `Progress.ExampleLogLine` | progress_test.go:45-55 | the indexer's console line gives `(2153, 3591, true)` |
| `Progress.ExampleOverflowNoRetry` | progress.go:15-18 | a first count too large for `int` gives `(0, 0, false)`, even when a later match in the text would convert |
| `Locker.Announcement` | remoteLocker.go:16-21 | the event a lock or release announces has the given type (`LOCK` in `Lock`, `UNLOCK` in `Unlock`, lines 34-39), carries the evidence path, and has no progress text |
| `Locker.AnnouncementReadsBack` | remoteLocker.go:16-22 | for an evidence path that is valid UTF-8, the lock service decodes the posted envelope to the same type and path, and the payload carries no `progress` member |
| `Locker.RemoteLocker.constructor` | main.go:28-30 | a new locker has the given URL, a free mutex, no evidence path, and nothing sent |
| `Locker.RemoteLocker.Readiness` | server.go:92-101 | the handler reports 200 exactly when no evidence path is recorded, and 503 otherwise |
| `Locker.RemoteLocker.Lock` | remoteLocker.go:13-27 | the mutex ends up taken; exactly one `LOCK` event for `p` goes to the unchanged URL; the send's result is returned as is; `p` stays recorded on success and the record is cleared on failure |
| `Locker.RemoteLocker.Unlock` | remoteLocker.go:29-41 | exactly one `UNLOCK` event for the path recorded before the call is sent; the send's result is returned as is; afterwards the record is empty and the mutex free, whatever the outcome |
| `Locker.LockCycle` | remoteLocker.go:13-41 | while a successful lock of a non-empty path is held, readiness is 503; after the unlock it is 200 again; the log holds exactly LOCK then UNLOCK for that path |
| `Locker.FailedLock` | remoteLocker.go:22-26 | a failed lock returns the transport error and reports ready again, but leaves the mutex taken |
| `Invocation.AssertEnv` | runIped.go:20-25 | succeeds exactly when the variable is set and non-empty, with its value; otherwise it is fatal with the message that names the variable |
| `Invocation.ResolveParams` | runIped.go:35-41 | an empty jar path becomes `IPEDJAR`'s value, and an empty heap size becomes `MEMORY`'s value; non-empty values are kept, as are evidence and output; the jar lookup is checked first and only failing lookups are fatal; the result has a non-empty jar and heap size |
| `Invocation.JavaCommand` | runIped.go:57-65 | the command is `java` with exactly eleven arguments |
| `Invocation.JavaCommandSplits` | runIped.go:57-65 | the JVM finds `-jar` as the third argument, after the headless flag and `-Xmx<memory>`; the jar follows it, then `-d`, the evidence, `-o`, the output and the three mode flags |
| `Invocation.HeapOptionReadsBack` | runIped.go:59 | the `-Xmx` option gives back exactly the heap size |
| `Invocation.ModeFlagsParse` | runIped.go:63-65 | `--nologfile`, `--nogui` and `--portable` are read as flags, in that order |
| `Invocation.IndexerArgsReadBack` | runIped.go:61-65 | the evidence is read right after `-d` and the output right after `-o`, whatever those strings are |
| `Invocation.JavaCommandReadsBack` | runIped.go:57-65 | reading the command line back gives exactly the parameters it was built from |
| `Invocation.JavaCommandInjective` | runIped.go:57-65 | different parameters never give the same command line |

## Left out

- Progress.Progress: returns the counts as integers, not as `float64`. Converting to
  `float64` rounds values above 2^53; the model does not capture that rounding.
- Progress.Atoi: assumes Go's `int` is 64 bits. On a 32-bit platform the range
  check would use 2^31 - 1.
- Events.EventWriter.Write: every failed write sends its event from a goroutine of its own
  (`event.go:38-40`), so even two failed writes made one after the other by one caller may
  reach the channel in either order. A send also never completes while nobody receives, or
  when the channel is nil. The model appends the event when `Write` returns, in call order,
  so `events` does not capture the order of arrival or whether an event arrives at all.
- Events.EventWriter.Write: requires `0 <= n <= len(p)` on a failed write. This is the
  `io.Writer` contract the inner writer must keep. The model does not follow Go's slice
  expression for an inner writer that breaks it (`p[:n]` with `len(p) < n <= cap(p)`
  reads past the data; it panics only for `n < 0` or `n > cap(p)`).
- Events.EnvelopeRoundTrip: holds only for text that is valid UTF-8. `json.Marshal`
  replaces every invalid UTF-8 byte in a string with U+FFFD, and the value tree does not
  model that. For example, a failed write of `p = [0xC3, 0xA9]` with `n = 1` gives the
  progress text `[0xC3]`, which Go posts as `"\ufffd"` (EF BF BD when decoded). The same
  holds for an evidence path that is not valid UTF-8.
- Locker.AnnouncementReadsBack: holds only for an evidence path that is valid UTF-8, for
  the same reason as `Events.EnvelopeRoundTrip`.
- Events.SendEvent: the printing, the JSON text (escaping), the transport and the wording of
  the error are left out. The outcome of the post is a parameter. A status error carries only
  the status code, not `resp.Status`. The `json.Marshal` error branch is left out: marshalling
  a struct of strings cannot fail.
- `Events.EventFromJson` is a reference decoder, written as the partner of the encoding. It is
  not in the source. It does not match keys case-insensitively as `json.Unmarshal` does, and
  it keeps the first of duplicate keys where `json.Unmarshal` keeps the last; the encoder
  never writes a key twice.
- `eventThrottle`, the rate limiter that forwards events: it is tested in `runIped_test.go`, but
  it is not part of this model, because its definition is not among the files and it depends on
  time and goroutines.
- The goroutines, the "busy" timeout of 10 ms, the `child` mutex and `exec.Command(...).Run()`
  in `runIped.go:42-74`: these are concurrency and process spawning. The model builds the
  command but does not run it.
- `sync.Mutex` blocking and any concurrent access to the locker: the mutex is a flag, and
  blocking is a precondition.
- HTTP routing, CORS, request decoding, the 5-second wait, the `watch` polling loop and
  context cancellation in `server.go` and `main.go`: these are I/O and concurrency. Only the
  readiness rule is modelled.
- The output finaliser (permissions, relocation), the lowercase `ipedParams` (profile,
  additional arguments and paths), and the `runIped` variant that takes the locker: the files
  use them, but their definitions are not part of this model.
- `metrics.go` (Prometheus registration), `generated.go`, `generate/main.go` and
  `scripts/generate.go` (a static document and file-copy generators): these are not part of
  the worker's logic.

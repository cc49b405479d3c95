/** main.ts: the `ContentPublisher` plugin's batch bookkeeping, the
    breadth-first collection of notes to publish with its "skip unmodified"
    rule, and the source-folder test for a single note. */
module Publisher {
  import opened Results
  import opened JsText
  import opened Vault
  import opened Handlers

  // ---------------------------------------------------------------------
  // What the plugin reports and requests

  /** The notice `noticeResult` shows. */
  datatype Summary = AllPublished | SomeFailed(failed: nat, successed: nat)

  /** The plugin's observable effects, in the order it performs them: the
      notices it shows, the template-processor cache clears, the processor
      cache entries it requests and the writes it hands to the file
      system. */
  datatype Event =
    | CacheCleared
    | Reported(summary: Summary)
    | InvalidDestination
    | ValidDestination
    | NotInSourceFolder(file: NoteFile)
    | Skipped(file: NoteFile)
    | RefreshFailed(file: NoteFile)
    | ProcessorCached(file: NoteFile, frontmatter: Option<Frontmatter>)
    | WriteRequested(file: NoteFile, text: string)
    | PublishFailed(file: NoteFile, message: string)

  /** `waitProcessingTask` and `result`. */
  datatype Batch = Batch(pending: int, successed: nat, failed: nat)

  function Summarize(successed: nat, failed: nat): Summary
  {
    if failed > 0 then SomeFailed(failed, successed) else AllPublished
  }

  /** `checkTaskDone` on values: one task fewer; at zero or below the
      processor cache is cleared, the result reported and the counters
      reset. */
  function CheckDone(b: Batch): (Batch, seq<Event>)
  {
    if b.pending - 1 <= 0 then (Batch(0, 0, 0), [CacheCleared, Reported(Summarize(b.successed, b.failed))])
    else (b.(pending := b.pending - 1), [])
  }

  /** `getPublishedText`: the note's text without its frontmatter, or the
      error reading it failed with. */
  function PublishedText(read: Result<string>): Result<string>
  {
    match read
    case Ok(content) => Ok(BodyText(content))
    case Err(m) => Err(m)
  }

  /** One `justPublishContent` call: the note, the header built for it and
      its published text. */
  datatype Attempt = Attempt(file: NoteFile, header: Result<string>, body: Result<string>)

  /** The text written for the note, `yaml + '\n' + content`, or the error
      that aborted it. */
  function Outcome(a: Attempt): Result<string>
  {
    match a.header
    case Err(m) => Err(m)
    case Ok(yaml) =>
      match a.body
      case Err(m) => Err(m)
      case Ok(content) => Ok(yaml + "\n" + content)
  }

  function AttemptEvent(a: Attempt): Event
  {
    match Outcome(a)
    case Ok(text) => WriteRequested(a.file, text)
    case Err(m) => PublishFailed(a.file, m)
  }

  /** `justPublishContent` on values: exactly one counter goes up, then
      `checkTaskDone` runs once. */
  function Step(b: Batch, a: Attempt): (Batch, seq<Event>)
  {
    var counted := if Outcome(a).Ok? then b.(successed := b.successed + 1) else b.(failed := b.failed + 1);
    var done := CheckDone(counted);
    (done.0, [AttemptEvent(a)] + done.1)
  }

  /** The attempts run one after another from `b`. */
  function RunAll(b: Batch, attempts: seq<Attempt>): (Batch, seq<Event>)
  {
    if attempts == [] then (b, [])
    else
      var n := |attempts| - 1;
      var before := RunAll(b, attempts[..n]);
      var last := Step(before.0, attempts[n]);
      (last.0, before.1 + last.1)
  }

  function Successes(attempts: seq<Attempt>): (k: nat)
    ensures k <= |attempts|
  {
    if attempts == [] then 0
    else Successes(attempts[..|attempts| - 1]) + (if Outcome(attempts[|attempts| - 1]).Ok? then 1 else 0)
  }

  /** One effect per attempt, in order. */
  function AttemptEvents(attempts: seq<Attempt>): seq<Event>
  {
    if attempts == [] then []
    else AttemptEvents(attempts[..|attempts| - 1]) + [AttemptEvent(attempts[|attempts| - 1])]
  }

  lemma {:induction false} RunAllSnoc(b: Batch, attempts: seq<Attempt>, i: nat)
    requires i < |attempts|
    ensures RunAll(b, attempts[..i + 1])
            == (Step(RunAll(b, attempts[..i]).0, attempts[i]).0,
                RunAll(b, attempts[..i]).1 + Step(RunAll(b, attempts[..i]).0, attempts[i]).1)
  {
    assert attempts[..i + 1][..i] == attempts[..i];
  }

  /** Before the n-th completion of a batch of n tasks, the pending count
      is n minus the completions so far, the counters count the successes
      and failures so far, and the cache has not been cleared. */
  lemma {:induction false} RunBeforeLast(n: int, attempts: seq<Attempt>)
    requires |attempts| < n
    ensures RunAll(Batch(n, 0, 0), attempts).0
            == Batch(n - |attempts|, Successes(attempts), |attempts| - Successes(attempts))
    ensures RunAll(Batch(n, 0, 0), attempts).1 == AttemptEvents(attempts)
    ensures CacheCleared !in RunAll(Batch(n, 0, 0), attempts).1
  {
    if attempts != [] {
      var k := |attempts| - 1;
      RunBeforeLast(n, attempts[..k]);
    }
  }

  /** A batch of n >= 1 tasks, once all n have completed, has cleared the
      processor cache exactly once, as its second-to-last effect, reported
      how many notes failed and succeeded, and is reset. */
  lemma {:induction false} RunCompletes(attempts: seq<Attempt>)
    requires |attempts| >= 1
    ensures RunAll(Batch(|attempts|, 0, 0), attempts)
            == (Batch(0, 0, 0),
                AttemptEvents(attempts)
                + [CacheCleared, Reported(Summarize(Successes(attempts), |attempts| - Successes(attempts)))])
  {
    var n := |attempts|;
    var k := n - 1;
    var pre := attempts[..k];
    var a := attempts[k];
    var b := Batch(n, 0, 0);
    var before := RunAll(b, pre);
    var succ := Successes(attempts);
    var report := [CacheCleared, Reported(Summarize(succ, n - succ))];
    assert Step(before.0, a) == (Batch(0, 0, 0), [AttemptEvent(a)] + report) by {
      RunBeforeLast(n, pre);
      assert succ == Successes(pre) + (if Outcome(a).Ok? then 1 else 0);
      LastStep(before.0, a);
    }
    calc {
      RunAll(b, attempts);
      { assert attempts[..k + 1] == attempts; }
      RunAll(b, attempts[..k + 1]);
      { RunAllSnoc(b, attempts, k); }
      (Step(before.0, a).0, before.1 + Step(before.0, a).1);
      (Batch(0, 0, 0), before.1 + ([AttemptEvent(a)] + report));
      { RunBeforeLast(n, pre);
        EventsAssociate(AttemptEvents(pre), [AttemptEvent(a)], report); }
      (Batch(0, 0, 0), AttemptEvents(attempts) + report);
    }
  }

  /** The completion that brings the pending count to zero. */
  lemma {:induction false} LastStep(b: Batch, a: Attempt)
    requires b.pending == 1
    ensures var ok := if Outcome(a).Ok? then 1 else 0;
            Step(b, a) == (Batch(0, 0, 0), [AttemptEvent(a)] + [CacheCleared, Reported(Summarize(b.successed + ok, b.failed + 1 - ok))])
  {
  }

  lemma EventsAssociate(a: seq<Event>, b: seq<Event>, c: seq<Event>)
    ensures a + (b + c) == (a + b) + c
  {
  }

  /** What a whole batch logs: one event per attempt, then, unless the batch
    was empty, the cache clearing and the report of the counts. */
  function BatchEvents(attempts: seq<Attempt>): seq<Event>
  {
    AttemptEvents(attempts)
    + (if attempts == [] then []
       else [CacheCleared, Reported(Summarize(Successes(attempts), |attempts| - Successes(attempts)))])
  }

  /** The whole of a batch of n tasks started with `setTask(n)`: one effect
      per attempt, and, unless the batch is empty, the cache clear and the
      report after the last. */
  lemma {:induction false} RunBatch(attempts: seq<Attempt>)
    ensures RunAll(Batch(|attempts|, 0, 0), attempts) == (Batch(0, 0, 0), BatchEvents(attempts))
  {
    if attempts != [] {
      RunCompletes(attempts);
    } else {
      assert AttemptEvents(attempts) + [] == [];
    }
  }

  // ---------------------------------------------------------------------
  // Collecting the notes to publish

  /** Number of entries in a queue of vault entries, counting everything
      below each folder. */
  function SizeAll(q: seq<Node>): nat
    decreases q
  {
    if q == [] then 0
    else
      (match q[0]
       case FileNode(_) => 1
       case Folder(_, cs) => 1 + SizeAll(cs))
      + SizeAll(q[1..])
  }

  lemma {:induction false} SizeAllAppend(a: seq<Node>, b: seq<Node>)
    ensures SizeAll(a + b) == SizeAll(a) + SizeAll(b)
  {
    if a == [] {
      assert a + b == b;
    } else {
      assert (a + b)[0] == a[0] && (a + b)[1..] == a[1..] + b;
      SizeAllAppend(a[1..], b);
    }
  }

  /** The files reached by the loop `shift` / `push(...children)` from the
      queue `q`, in the order it reaches them. */
  function LevelOrder(q: seq<Node>): seq<NoteFile>
    decreases SizeAll(q)
  {
    if q == [] then []
    else
      match q[0]
      case FileNode(f) => [f] + LevelOrder(q[1..])
      case Folder(_, cs) =>
        SizeAllAppend(q[1..], cs);
        LevelOrder(q[1..] + cs)
  }

  /** Every file below the entries of `q`, depth first: an independent
      listing of the same tree. */
  function AllFiles(q: seq<Node>): seq<NoteFile>
    decreases q
  {
    if q == [] then []
    else
      (match q[0]
       case FileNode(f) => [f]
       case Folder(_, cs) => AllFiles(cs))
      + AllFiles(q[1..])
  }

  lemma {:induction false} AllFilesAppend(a: seq<Node>, b: seq<Node>)
    ensures AllFiles(a + b) == AllFiles(a) + AllFiles(b)
  {
    if a == [] {
      assert a + b == b;
    } else {
      var head := match a[0] case FileNode(f) => [f] case Folder(_, cs) => AllFiles(cs);
      assert (a + b)[0] == a[0] && (a + b)[1..] == a[1..] + b;
      assert AllFiles(a + b) == head + AllFiles(a[1..] + b);
      AllFilesAppend(a[1..], b);
      assert AllFiles(a) == head + AllFiles(a[1..]);
    }
  }

  /** The queue reaches every file of the tree exactly once. */
  lemma {:induction false} LevelOrderCoversTree(q: seq<Node>)
    ensures multiset(LevelOrder(q)) == multiset(AllFiles(q))
    decreases SizeAll(q)
  {
    if q != [] {
      match q[0]
      case FileNode(f) =>
        LevelOrderCoversTree(q[1..]);
        assert LevelOrder(q) == [f] + LevelOrder(q[1..]);
        assert AllFiles(q) == [f] + AllFiles(q[1..]);
        assert multiset(LevelOrder(q)) == multiset([f]) + multiset(LevelOrder(q[1..]));
      case Folder(_, cs) =>
        SizeAllAppend(q[1..], cs);
        LevelOrderCoversTree(q[1..] + cs);
        AllFilesAppend(q[1..], cs);
    }
  }

  /** The files standing directly in `q`, in order. */
  function FilesOf(q: seq<Node>): seq<NoteFile>
  {
    if q == [] then []
    else (if q[0].FileNode? then [q[0].file] else []) + FilesOf(q[1..])
  }

  /** The children of the folders standing directly in `q`, folder by
      folder, each in listed order: the next level. */
  function Children(q: seq<Node>): seq<Node>
  {
    if q == [] then []
    else (if q[0].Folder? then q[0].children else []) + Children(q[1..])
  }

  lemma {:induction false} LevelOrderAppend(q: seq<Node>, r: seq<Node>)
    ensures LevelOrder(q + r) == FilesOf(q) + LevelOrder(r + Children(q))
  {
    if q == [] {
      assert q + r == r && r + [] == r;
    } else {
      var s := q + r;
      assert s[0] == q[0] && s[1..] == q[1..] + r;
      match q[0]
      case FileNode(f) =>
        LevelOrderAppend(q[1..], r);
        assert LevelOrder(s) == [f] + LevelOrder(q[1..] + r);
        assert FilesOf(q) == [f] + FilesOf(q[1..]);
        assert Children(q) == Children(q[1..]);
      case Folder(_, cs) =>
        assert s[1..] + cs == q[1..] + (r + cs);
        LevelOrderAppend(q[1..], r + cs);
        FolderFirst(q, r, cs);
    }
  }

  lemma FolderFirst(q: seq<Node>, r: seq<Node>, cs: seq<Node>)
    requires q != [] && q[0].Folder? && q[0].children == cs
    requires LevelOrder(q[1..] + (r + cs)) == FilesOf(q[1..]) + LevelOrder((r + cs) + Children(q[1..]))
    ensures LevelOrder(q + r) == FilesOf(q) + LevelOrder(r + Children(q))
  {
    var s := q + r;
    assert s[0] == q[0];
    assert s[1..] + cs == q[1..] + (r + cs) by {
      assert s[1..] == q[1..] + r;
    }
    assert LevelOrder(s) == LevelOrder(q[1..] + (r + cs));
    assert FilesOf(q) == FilesOf(q[1..]);
    assert Children(q) == cs + Children(q[1..]);
    assert (r + cs) + Children(q[1..]) == r + Children(q);
  }

  /** Breadth first: the files of the current level come first, in order,
      then everything reached from the next level. */
  lemma LevelOrderByLevels(q: seq<Node>)
    ensures LevelOrder(q) == FilesOf(q) + LevelOrder(Children(q))
  {
    LevelOrderAppend(q, []);
    assert q + [] == q && [] + Children(q) == Children(q);
  }

  /** `!!v` for a frontmatter value (NaN is not modelled). */
  predicate Truthy(v: FieldValue) {
    match v
    case Num(n) => n != 0
    case Str(s) => s != []
    case Bool(b) => b
    case Null => false
  }

  /** The value of a non-empty string of decimal digits. */
  function DigitsValue(s: string): (r: Option<nat>)
    ensures r.Some? <==> s != [] && forall i :: 0 <= i < |s| ==> '0' <= s[i] <= '9'
  {
    if s == [] || !('0' <= s[|s| - 1] <= '9') then None
    else if |s| == 1 then Some(s[0] as nat - '0' as nat)
    else
      match DigitsValue(s[..|s| - 1])
      case None => None
      case Some(v) => Some(10 * v + (s[|s| - 1] as nat - '0' as nat))
  }

  /** The decimal numeral of `n`, most significant digit first and without
      leading zeros, as `String(n)` writes a whole number. */
  function Decimal(n: nat): (s: string)
    ensures s != [] && forall i :: 0 <= i < |s| ==> '0' <= s[i] <= '9'
    ensures |s| == 1 <==> n < 10
    ensures |s| > 1 ==> s[0] != '0'
    decreases n
  {
    if n < 10 then [('0' as nat + n) as char]
    else Decimal(n / 10) + [('0' as nat + n % 10) as char]
  }

  /** Reading a numeral back gives the number it was written from, so
      `DigitsValue` weighs each digit by its position. */
  lemma {:induction false} DigitsValueOfDecimal(n: nat)
    ensures DigitsValue(Decimal(n)) == Some(n)
    decreases n
  {
    if n >= 10 {
      DigitsValueOfDecimal(n / 10);
      var s := Decimal(n);
      assert s[..|s| - 1] == Decimal(n / 10);
    }
  }

  /** The number a value compares as in `value >= mtime`; `None` is NaN,
      against which every comparison is false. */
  function AsNumber(v: FieldValue): Option<int>
  {
    match v
    case Num(n) => Some(n)
    case Bool(b) => Some(if b then 1 else 0)
    case Null => Some(0)
    case Str(s) =>
      var t := Trim(s);
      if t == [] then Some(0)
      else match DigitsValue(t)
        case Some(d) => Some(d)
        case None => None
  }

  /** The skip rule of `publishAllNotes`: with `respectModTs`, a file is
      skipped when its cached frontmatter has a truthy `content-update-ts`
      not smaller than the file's modification time. */
  predicate SkipUnmodified(respectModTs: bool, cache: MetadataCache, f: NoteFile) {
    && respectModTs
    && f.path in cache
    && ModTsKey in cache[f.path]
    && var ts := cache[f.path][ModTsKey];
    && Truthy(ts)
    && AsNumber(ts).Some?
    && AsNumber(ts).value >= f.mtime
  }

  /** The files of `fs` the rule skips (`skip`) or keeps (`!skip`), in order. */
  function Select(fs: seq<NoteFile>, respectModTs: bool, cache: MetadataCache, skip: bool): seq<NoteFile>
  {
    if fs == [] then []
    else
      (if SkipUnmodified(respectModTs, cache, fs[0]) == skip then [fs[0]] else [])
      + Select(fs[1..], respectModTs, cache, skip)
  }

  /** Without `respectModTs` every file is kept. */
  lemma {:induction false} NothingSkippedWithoutRespect(fs: seq<NoteFile>, cache: MetadataCache)
    ensures Select(fs, false, cache, false) == fs
    ensures Select(fs, false, cache, true) == []
  {
    if fs != [] {
      NothingSkippedWithoutRespect(fs[1..], cache);
      assert fs == [fs[0]] + fs[1..];
    }
  }

  /** For a numeric timestamp: skipped exactly when it is non-zero and at
      least the modification time. */
  lemma NumericTimestampSkips(cache: MetadataCache, f: NoteFile, n: int)
    requires f.path in cache && ModTsKey in cache[f.path] && cache[f.path][ModTsKey] == Num(n)
    ensures SkipUnmodified(true, cache, f) <==> n != 0 && n >= f.mtime
  {
  }

  /** For a timestamp stored as a numeral: skipped exactly when the number
      it reads is at least the modification time (a non-empty text is
      truthy, even "0"). */
  lemma NumeralTimestampSkips(cache: MetadataCache, f: NoteFile, n: nat)
    requires f.path in cache && ModTsKey in cache[f.path] && cache[f.path][ModTsKey] == Str(Decimal(n))
    ensures SkipUnmodified(true, cache, f) <==> n >= f.mtime
  {
    NumeralAsNumber(n);
  }

  lemma NumeralAsNumber(n: nat)
    ensures AsNumber(Str(Decimal(n))) == Some(n)
  {
    var s := Decimal(n);
    assert !IsSpace(s[0]) && !IsSpace(s[|s| - 1]);
    TrimUnchanged(s);
    DigitsValueOfDecimal(n);
    AsNumberOfDigits(s, n);
  }

  lemma AsNumberOfDigits(s: string, n: nat)
    requires Trim(s) == s && DigitsValue(s) == Some(n)
    ensures AsNumber(Str(s)) == Some(n)
  {
  }

  /** A timestamp written as a date text is never a number, so the note is
      published again. */
  lemma DateTextNeverSkips(cache: MetadataCache, f: NoteFile)
    requires f.path in cache && ModTsKey in cache[f.path] && cache[f.path][ModTsKey] == Str("2024-01-01")
    ensures !SkipUnmodified(true, cache, f)
  {
    assert "2024-01-01"[4] == '-';
    TrimUnchanged("2024-01-01");
  }

  lemma SelectCons(f: NoteFile, rest: seq<NoteFile>, respectModTs: bool, cache: MetadataCache)
    ensures forall skip: bool {:trigger Select([f] + rest, respectModTs, cache, skip)} ::
              Select([f] + rest, respectModTs, cache, skip)
              == (if SkipUnmodified(respectModTs, cache, f) == skip then [f] else [])
                 + Select(rest, respectModTs, cache, skip)
  {
    assert ([f] + rest)[0] == f && ([f] + rest)[1..] == rest;
  }

  /** A file taken off the front of what is still to be selected joins the
      list being built exactly when the rule puts it on that side. */
  lemma SelectStep(acc: seq<NoteFile>, f: NoteFile, rest: seq<NoteFile>,
                   respectModTs: bool, cache: MetadataCache, skip: bool)
    ensures acc + Select([f] + rest, respectModTs, cache, skip)
            == (if SkipUnmodified(respectModTs, cache, f) == skip then acc + [f] else acc)
               + Select(rest, respectModTs, cache, skip)
  {
    SelectCons(f, rest, respectModTs, cache);
    var a := Select(rest, respectModTs, cache, skip);
    assert acc + ([f] + a) == (acc + [f]) + a;
  }

  function RootQueue(root: Option<Node>): seq<Node>
  {
    match root
    case Some(n) => [n]
    case None => []
  }

  /** The collection loop of `publishAllNotes`: the queue starts with the
      note folder's entry (nothing when the folder does not exist), folders
      are replaced by their children at the back of the queue, and files
      are kept or skipped by the rule, in the order the queue reaches them. */
  method CollectFiles(root: Option<Node>, respectModTs: bool, cache: MetadataCache)
    returns (files: seq<NoteFile>, skipped: seq<NoteFile>)
    ensures files == Select(LevelOrder(RootQueue(root)), respectModTs, cache, false)
    ensures skipped == Select(LevelOrder(RootQueue(root)), respectModTs, cache, true)
  {
    var queue := RootQueue(root);
    files, skipped := [], [];
    while queue != []
      invariant Select(LevelOrder(RootQueue(root)), respectModTs, cache, false)
                == files + Select(LevelOrder(queue), respectModTs, cache, false)
      invariant Select(LevelOrder(RootQueue(root)), respectModTs, cache, true)
                == skipped + Select(LevelOrder(queue), respectModTs, cache, true)
      decreases SizeAll(queue)
    {
      var t := queue[0];
      ghost var before := queue;
      queue := queue[1..];
      match t
      case Folder(_, children) =>
        SizeAllAppend(queue, children);
        queue := queue + children;
        assert LevelOrder(before) == LevelOrder(queue);
      case FileNode(f) =>
        assert LevelOrder(before) == [f] + LevelOrder(queue);
        SelectStep(files, f, LevelOrder(queue), respectModTs, cache, false);
        SelectStep(skipped, f, LevelOrder(queue), respectModTs, cache, true);
        if SkipUnmodified(respectModTs, cache, f) {
          skipped := skipped + [f];
        } else {
          files := files + [f];
        }
    }
  }

  // ---------------------------------------------------------------------
  // `_checkNoteInSourcePathSetting`

  /** `/.*\.md$/` anchored where it starts: characters other than line
      terminators, then `.md` at the very end. */
  predicate AnyThenMd(s: string)
    decreases |s|
  {
    s == ".md" || (s != [] && !IsLineTerminator(s[0]) && AnyThenMd(s[1..]))
  }

  lemma {:induction false} AnyThenMdShape(s: string)
    ensures AnyThenMd(s) <==>
            && |s| >= 3 && s[|s| - 3..] == ".md"
            && forall i :: 0 <= i < |s| - 3 ==> !IsLineTerminator(s[i])
    decreases |s|
  {
    if s != [] && s != ".md" {
      AnyThenMdShape(s[1..]);
      if |s| > 3 {
        assert s[1..][|s| - 4..] == s[|s| - 3..];
        if forall i :: 0 <= i < |s| - 4 ==> !IsLineTerminator(s[1..][i]) {
          if !IsLineTerminator(s[0]) {
            forall i | 0 <= i < |s| - 3 ensures !IsLineTerminator(s[i]) {
              if i > 0 { assert s[i] == s[1..][i - 1]; }
            }
          }
        } else {
          var i :| 0 <= i < |s| - 4 && IsLineTerminator(s[1..][i]);
          assert IsLineTerminator(s[i + 1]);
        }
      } else if |s| == 3 {
        assert s[|s| - 3..] == s;
      }
    }
  }

  /** `new RegExp('^' + noteFolder + '.*\\.md$').test(path)`, with the
      folder name read literally. */
  predicate InSourceFolder(noteFolder: string, path: string) {
    |noteFolder| <= |path| && path[..|noteFolder|] == noteFolder && AnyThenMd(path[|noteFolder|..])
  }

  /** A note is accepted exactly when its path starts with the note folder,
      ends in `.md` after it, and has no line break in between. */
  lemma InSourceFolderShape(noteFolder: string, path: string)
    ensures InSourceFolder(noteFolder, path) <==>
            && |noteFolder| + 3 <= |path|
            && path[..|noteFolder|] == noteFolder
            && path[|path| - 3..] == ".md"
            && forall i :: |noteFolder| <= i < |path| - 3 ==> !IsLineTerminator(path[i])
  {
    if |noteFolder| <= |path| {
      var s := path[|noteFolder|..];
      AnyThenMdShape(s);
      if |s| >= 3 {
        assert s[|s| - 3..] == path[|path| - 3..];
        forall i | |noteFolder| <= i < |path| - 3 ensures path[i] == s[i - |noteFolder|] { }
      }
    }
  }

  // ---------------------------------------------------------------------
  // The destination folder check

  /** `checkSettingOfAbPath` as written: it refuses a path only when the
      path is empty and does not exist, so only the empty path. */
  predicate AbPathAcceptedAsWritten(abPath: string, existsSync: string -> bool) {
    !(|abPath| == 0 && !existsSync(abPath))
  }

  /** A folder that does not exist passes the check as written. */
  lemma MissingFolderAccepted()
    ensures AbPathAcceptedAsWritten("/no/such/folder", p => false)
    ensures !AbPathAccepted("/no/such/folder", p => false)
  {
  }

  /** With the empty path not existing, the check as written accepts every
      non-empty path, whatever the file system holds. */
  lemma AsWrittenIgnoresFileSystem(abPath: string, existsSync: string -> bool)
    requires !existsSync("")
    ensures AbPathAcceptedAsWritten(abPath, existsSync) <==> abPath != []
  {
  }

  /** The check its message describes: the folder is named and exists. */
  predicate AbPathAccepted(abPath: string, existsSync: string -> bool) {
    |abPath| > 0 && existsSync(abPath)
  }

  /** The corrected check accepts a path exactly when the check as written
      does and the folder exists. */
  lemma CorrectedCheckRefinesAsWritten(abPath: string, existsSync: string -> bool)
    requires !existsSync("")
    ensures AbPathAccepted(abPath, existsSync) <==> AbPathAcceptedAsWritten(abPath, existsSync) && existsSync(abPath)
  {
  }

  // ---------------------------------------------------------------------
  // The plugin object

  function RefreshEvents(files: seq<NoteFile>, update: NoteFile -> Result<Option<Frontmatter>>): (es: seq<Event>)
    ensures |es| == |files|
    ensures forall i :: 0 <= i < |files| ==>
              es[i] == (match update(files[i])
                        case Ok(fm) => ProcessorCached(files[i], fm)
                        case Err(_) => RefreshFailed(files[i]))
  {
    seq(|files|, i requires 0 <= i < |files| =>
      match update(files[i])
      case Ok(fm) => ProcessorCached(files[i], fm)
      case Err(_) => RefreshFailed(files[i]))
  }

  /** A processor is cached for a file exactly when refreshing it
      succeeded, and every failure is reported; no file stops the loop. */
  lemma RefreshCachesSucceeded(files: seq<NoteFile>, update: NoteFile -> Result<Option<Frontmatter>>,
                               f: NoteFile, fm: Option<Frontmatter>)
    ensures ProcessorCached(f, fm) in RefreshEvents(files, update) <==> f in files && update(f) == Ok(fm)
    ensures RefreshFailed(f) in RefreshEvents(files, update) <==> f in files && update(f).Err?
  {
    var es := RefreshEvents(files, update);
    if f in files {
      var i :| 0 <= i < |files| && files[i] == f;
      assert es[i] in es;
    }
  }

  function SkipEvents(skipped: seq<NoteFile>): (es: seq<Event>)
    ensures |es| == |skipped| && forall i :: 0 <= i < |es| ==> es[i] == Skipped(skipped[i])
  {
    seq(|skipped|, i requires 0 <= i < |skipped| => Skipped(skipped[i]))
  }

  function Attempts(files: seq<NoteFile>, header: (NoteFile, Option<Frontmatter>) -> Result<string>,
                    read: NoteFile -> Result<string>): (r: seq<Attempt>)
    ensures |r| == |files|
    ensures forall i :: 0 <= i < |r| ==> r[i] == Attempt(files[i], header(files[i], None), PublishedText(read(files[i])))
  {
    seq(|files|, i requires 0 <= i < |files| => Attempt(files[i], header(files[i], None), PublishedText(read(files[i]))))
  }

  /** What publishing every collected note logs after the destination check:
    the skipped notes, the frontmatter refresh and the batch. */
  function PublishAllEvents(skipped: seq<NoteFile>, files: seq<NoteFile>,
                            update: NoteFile -> Result<Option<Frontmatter>>,
                            header: (NoteFile, Option<Frontmatter>) -> Result<string>,
                            read: NoteFile -> Result<string>): seq<Event>
  {
    SkipEvents(skipped) + RefreshEvents(files, update) + BatchEvents(Attempts(files, header, read))
  }

  class ContentPublisher {
    var waitProcessingTask: int
    var successed: nat
    var failed: nat
    /** Everything the plugin has shown or requested so far. */
    var log: seq<Event>

    function State(): Batch
      reads this
    {
      Batch(waitProcessingTask, successed, failed)
    }

    constructor()
      ensures State() == Batch(0, 0, 0) && log == []
    {
      waitProcessingTask, successed, failed := 0, 0, 0;
      log := [];
    }

    method ClearTemplateProcessor()
      modifies this
      ensures State() == old(State()) && log == old(log) + [CacheCleared]
    {
      log := log + [CacheCleared];
    }

    method SetTask(task: int)
      modifies this
      ensures State() == Batch(task, 0, 0) && log == old(log)
    {
      waitProcessingTask := task;
      successed, failed := 0, 0;
    }

    method ClearTask()
      modifies this
      ensures State() == Batch(0, 0, 0) && log == old(log)
    {
      waitProcessingTask := 0;
      successed, failed := 0, 0;
    }

    method NoticeResult()
      modifies this
      ensures State() == old(State())
      ensures log == old(log) + [Reported(Summarize(successed, failed))]
    {
      log := log + [Reported(Summarize(successed, failed))];
    }

    method CheckTaskDone()
      modifies this
      ensures State() == CheckDone(old(State())).0
      ensures log == old(log) + CheckDone(old(State())).1
    {
      waitProcessingTask := waitProcessingTask - 1;
      if waitProcessingTask <= 0 {
        ClearTemplateProcessor();
        NoticeResult();
        ClearTask();
      }
    }

    /** `justPublishContent`: the header and the published text of the note
      (what `getPublishedText` gave, `PublishedText` of the read) are
      written together, and the attempt counts as a success, or its error
      counts as a failure; then the task is checked off. */
    method JustPublishContent(file: NoteFile, header: Result<string>, text: Result<string>)
      modifies this
      ensures State() == Step(old(State()), Attempt(file, header, text)).0
      ensures log == old(log) + Step(old(State()), Attempt(file, header, text)).1
    {
      match header {
        case Err(m) =>
          failed := failed + 1;
          log := log + [PublishFailed(file, m)];
        case Ok(yaml) =>
          match text {
            case Err(m) =>
              failed := failed + 1;
              log := log + [PublishFailed(file, m)];
            case Ok(content) =>
              log := log + [WriteRequested(file, yaml + "\n" + content)];
              successed := successed + 1;
          }
      }
      CheckTaskDone();
    }

    /** `publishSingleNote`: once the note's frontmatter is updated, a batch
      of one is run, so the attempt is followed by the cache clear and the
      report; if the update fails nothing happens. */
    method PublishSingleNote(file: NoteFile, update: Result<Option<Frontmatter>>,
                             header: (NoteFile, Option<Frontmatter>) -> Result<string>, read: Result<string>)
      modifies this
      ensures update.Err? ==> State() == old(State()) && log == old(log)
      ensures update.Ok? ==>
                var a := Attempt(file, header(file, update.value), PublishedText(read));
                && State() == Batch(0, 0, 0)
                && log == old(log) + [AttemptEvent(a), CacheCleared,
                                      Reported(if Outcome(a).Ok? then AllPublished else SomeFailed(1, 0))]
    {
      if update.Err? {
        return;
      }
      SetTask(1);
      JustPublishContent(file, header(file, update.value), PublishedText(read));
    }

    /** `refreshContentFrontmatter`: every file's frontmatter is updated in
      turn; a failure is reported and the loop goes on. */
    method RefreshContentFrontmatter(files: seq<NoteFile>, update: NoteFile -> Result<Option<Frontmatter>>)
      modifies this
      ensures State() == old(State())
      ensures log == old(log) + RefreshEvents(files, update)
    {
      for i := 0 to |files|
        invariant State() == old(State())
        invariant log == old(log) + RefreshEvents(files[..i], update)
      {
        assert RefreshEvents(files[..i + 1], update) == RefreshEvents(files[..i], update) + RefreshEvents([files[i]], update);
        match update(files[i])
        case Ok(frontmatter) =>
          log := log + [ProcessorCached(files[i], frontmatter)];
        case Err(_) =>
          log := log + [RefreshFailed(files[i])];
      }
      assert files[..|files|] == files;
    }

    /** `publishAllNotes`: with a valid destination, the notes under the
      note folder are collected breadth first (skipping unmodified ones when
      asked), their frontmatter refreshed, and one task per note run.  A
      non-empty batch ends reset, with the cache cleared once and the
      result reported; an empty batch reports nothing. */
    method PublishAllNotes(respectModTs: bool, publishToAbFolder: string, existsSync: string -> bool,
                           root: Option<Node>, cache: MetadataCache,
                           update: NoteFile -> Result<Option<Frontmatter>>,
                           header: (NoteFile, Option<Frontmatter>) -> Result<string>,
                           read: NoteFile -> Result<string>)
      modifies this
      ensures !AbPathAccepted(publishToAbFolder, existsSync) ==>
                State() == old(State()) && log == old(log) + [InvalidDestination]
      ensures AbPathAccepted(publishToAbFolder, existsSync) ==>
                var found := LevelOrder(RootQueue(root));
                && State() == Batch(0, 0, 0)
                && log == old(log) + PublishAllEvents(Select(found, respectModTs, cache, true),
                                                      Select(found, respectModTs, cache, false),
                                                      update, header, read)
    {
      var destinationOk := CheckProjectContentAbPath(publishToAbFolder, existsSync, false);
      if destinationOk {
        assert log == old(log) by {
          assert old(log) + [] == old(log);
        }
        PublishCollected(respectModTs, root, cache, update, header, read);
      }
    }

    /** What `publishAllNotes` does once the destination is accepted:
      collect, refresh, then publish every collected note as one batch. */
    method PublishCollected(respectModTs: bool, root: Option<Node>, cache: MetadataCache,
                            update: NoteFile -> Result<Option<Frontmatter>>,
                            header: (NoteFile, Option<Frontmatter>) -> Result<string>,
                            read: NoteFile -> Result<string>)
      modifies this
      ensures var found := LevelOrder(RootQueue(root));
              && State() == Batch(0, 0, 0)
              && log == old(log) + PublishAllEvents(Select(found, respectModTs, cache, true),
                                                    Select(found, respectModTs, cache, false),
                                                    update, header, read)
    {
      var files, skipped := CollectFiles(root, respectModTs, cache);
      log := log + SkipEvents(skipped);
      RefreshContentFrontmatter(files, update);
      ghost var refreshed := log;
      EventsAssociate(old(log), SkipEvents(skipped), RefreshEvents(files, update));
      SetTask(|files|);
      ghost var attempts := Attempts(files, header, read);
      assert State() == Batch(|attempts|, 0, 0);
      PublishEach(files, header, read);
      RunBatch(attempts);
      assert log == refreshed + BatchEvents(attempts);
      EventsAssociate(old(log), SkipEvents(skipped) + RefreshEvents(files, update), BatchEvents(attempts));
    }

    /** The closing loop of `publishAllNotes`: one `justPublishContent` per
      collected note, in order, each with the header built for the note
      alone (no frontmatter passed). */
    method PublishEach(files: seq<NoteFile>, header: (NoteFile, Option<Frontmatter>) -> Result<string>,
                       read: NoteFile -> Result<string>)
      modifies this
      ensures State() == RunAll(old(State()), Attempts(files, header, read)).0
      ensures log == old(log) + RunAll(old(State()), Attempts(files, header, read)).1
    {
      ghost var b := State();
      ghost var start := log;
      ghost var attempts := Attempts(files, header, read);
      for i := 0 to |files|
        invariant State() == RunAll(b, attempts[..i]).0
        invariant log == start + RunAll(b, attempts[..i]).1
      {
        ghost var run := RunAll(b, attempts[..i]);
        RunAllSnoc(b, attempts, i);
        assert attempts[i] == Attempt(files[i], header(files[i], None), PublishedText(read(files[i])));
        JustPublishContent(files[i], header(files[i], None), PublishedText(read(files[i])));
        EventsAssociate(start, run.1, Step(run.0, attempts[i]).1);
      }
      assert attempts[..|files|] == attempts;
    }

    /** `_checkProjectContentAbPathSetting`, on the corrected folder check:
      an unusable destination is reported; a usable one only when asked. */
    method CheckProjectContentAbPath(publishToAbFolder: string, existsSync: string -> bool, validNoticed: bool)
      returns (ok: bool)
      modifies this
      ensures ok == AbPathAccepted(publishToAbFolder, existsSync)
      ensures State() == old(State())
      ensures log == old(log) + (if !ok then [InvalidDestination] else if validNoticed then [ValidDestination] else [])
    {
      if AbPathAccepted(publishToAbFolder, existsSync) {
        if validNoticed {
          log := log + [ValidDestination];
        }
        return true;
      }
      log := log + [InvalidDestination];
      return false;
    }

    /** `_checkNoteInSourcePathSetting`: a note outside the note folder, or
      not a Markdown file, is refused with a notice. */
    method CheckNoteInSourcePath(noteFolder: string, file: NoteFile) returns (ok: bool)
      modifies this
      ensures ok == InSourceFolder(noteFolder, file.path)
      ensures State() == old(State())
      ensures log == old(log) + (if ok then [] else [NotInSourceFolder(file)])
    {
      if InSourceFolder(noteFolder, file.path) {
        return true;
      }
      log := log + [NotInSourceFolder(file)];
      return false;
    }
  }
}

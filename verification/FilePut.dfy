/**
 Writing a file to a MicroPython board (`put_programs` in micropython.py, `mpy_put` in server.py):
 one small program per chunk of content, each carrying its bytes as a base64 literal.
*/
module FilePut {
  import opened Wrappers
  import opened Bytes
  import Base64
  import TopicFilters
  import LineProtocol

  const PUT_CHUNK: nat := 3 * 1024
  const MAX_FILE_BYTES: nat := 32 * 1024
  const MAX_PATH: nat := 128

  datatype Refusal = WriteTooLarge | InvalidPath

  // ------------------------------------------------------------------ paths

  predicate PathChar(c: char) {
    'A' <= c <= 'Z' || 'a' <= c <= 'z' || '0' <= c <= '9' || c == '_' || c == '.' || c == '-'
  }

  /** `PATH.fullmatch`: an optional slash, then names separated by single slashes. */
  predicate PlainName(name: string) {
    name != "" && forall i :: 0 <= i < |name| ==> PathChar(name[i])
  }

  predicate CheckPath(path: string) {
    path == "/" || (|path| <= MAX_PATH && AllGood(TopicFilters.Split(Relative(path))))
  }

  /** Without the slash in front. */
  function Relative(path: string): string { if path != "" && path[0] == '/' then path[1..] else path }

  predicate AllGood(names: seq<string>) { forall i :: 0 <= i < |names| ==> GoodName(names[i]) }

  predicate GoodName(name: string) { PlainName(name) && name != ".." }

  /** A path character, or a single slash with something on either side. */
  predicate ProperAt(s: string, i: nat)
    requires i < |s|
  {
    PathChar(s[i]) || (s[i] == '/' && 0 < i < |s| - 1 && s[i + 1] != '/')
  }

  /** Two dots that make up a whole name. */
  predicate UpAt(s: string, i: nat) {
    i + 1 < |s| && s[i] == '.' && s[i + 1] == '.' && (i == 0 || s[i - 1] == '/') && (i + 2 == |s| || s[i + 2] == '/')
  }

  predicate ProperNames(s: string) { s != "" && forall i: nat :: i < |s| ==> ProperAt(s, i) && !UpAt(s, i) }

  lemma {:induction false} ProperWord(word: string)
    requires '/' !in word
    ensures ProperNames(word) <==> GoodName(word)
  {
    if ProperNames(word) { forall i | 0 <= i < |word| ensures PathChar(word[i]) { assert ProperAt(word, i); } }
    if word == ".." { assert UpAt(word, 0); }
  }

  lemma {:induction false} ProperAfterSlash(word: string, rest: string)
    requires '/' !in word
    ensures ProperNames(word + "/" + rest) <==> GoodName(word) && ProperNames(rest)
  {
    var (s, n) := (word + "/" + rest, |word| + 1);
    forall i: nat | i < |rest| && rest[0] != '/' ensures (ProperAt(rest, i) <==> ProperAt(s, n + i)) && (UpAt(rest, i) <==> UpAt(s, n + i)) {
      assert s[n + i] == rest[i] && (i > 0 ==> s[n + i - 1] == rest[i - 1]);
      assert (i + 1 < |rest| ==> s[n + i + 1] == rest[i + 1]) && (i + 2 < |rest| ==> s[n + i + 2] == rest[i + 2]);
    }
    forall i: nat | i < |word| ensures (ProperAt(s, i) <==> PathChar(word[i])) && (UpAt(s, i) <==> word == ".." && i == 0) {
      assert s[i] == word[i] && (i > 0 ==> s[i - 1] == word[i - 1]);
      assert (i + 1 < |word| ==> s[i + 1] == word[i + 1]) && (i + 2 < |word| ==> s[i + 2] == word[i + 2]);
    }
    assert s[n - 1] == '/' && !UpAt(s, n - 1) && (ProperAt(s, n - 1) <==> word != "" && rest != "" && rest[0] != '/');
    if ProperNames(s) {
      assert ProperAt(s, n - 1);
      forall i | 0 <= i < |word| ensures PathChar(word[i]) { assert ProperAt(s, i); }
      assert !UpAt(s, 0);
      forall i: nat | i < |rest| ensures ProperAt(rest, i) && !UpAt(rest, i) { assert ProperAt(s, n + i) && !UpAt(s, n + i); }
    }
    if GoodName(word) && ProperNames(rest) {
      assert ProperAt(rest, 0);
      forall i: nat | i < |s| ensures ProperAt(s, i) && !UpAt(s, i) {
        if i >= n { assert ProperAt(rest, i - n) && !UpAt(rest, i - n); }
      }
    }
  }

  lemma {:induction false} ProperJoined(names: TopicFilters.Levels)
    requires names != [] && forall n :: n in names ==> '/' !in n
    ensures AllGood(names) <==> ProperNames(TopicFilters.Join(names))
  {
    if |names| == 1 {
      ProperWord(names[0]);
    } else {
      ProperJoined(names[1..]);
      ProperAfterSlash(names[0], TopicFilters.Join(names[1..]));
      assert forall i :: 0 < i < |names| ==> names[i] == names[1..][i - 1];
    }
  }

  /** A path is accepted exactly if it is the root, or at most 128 characters of names with single slashes
      between them, perhaps one in front, none of the names being two dots. */
  lemma {:induction false} CheckPathIff(path: string)
    ensures CheckPath(path) <==>
              path == "/" || (|path| <= 128 && ProperNames(if path != "" && path[0] == '/' then path[1..] else path))
  {
    hide ProperNames, AllGood;
    var text := Relative(path);
    TopicFilters.JoinSplit(text);
    TopicFilters.SplitHasNoSlash(text);
    var names := TopicFilters.Split(text);
    ProperJoined(names);
  }

  // ------------------------------------------------------------------ programs

  datatype Program = Program(path: string, append: bool, data: seq<byte>)

  const HEAD := "import ubinascii, os\nf = open(\""
  const MODE := "\", '"
  const WRITE := "')\nf.write(ubinascii.a2b_base64('"
  const CLOSE := "'))\nf.close()\nprint(os.stat(\""
  const TAIL := "\")[6])\n"

  /** The text sent to the board. A checked path is its own JSON. */
  function Text(p: Program): string {
    HEAD + (p.path + (MODE + ((if p.append then "ab" else "wb")
    + (WRITE + (Base64.Encode(p.data) + (CLOSE + (p.path + TAIL)))))))
  }

  function Chunk(content: seq<byte>, i: nat): seq<byte>
    requires i * PUT_CHUNK <= |content|
  {
    content[i * PUT_CHUNK..Covered(content, i + 1)]
  }

  function Clip(k: nat, length: nat): nat { if k * PUT_CHUNK < length then k * PUT_CHUNK else length }

  /** How much of the content k programs carry. */
  function Covered(content: seq<byte>, k: nat): nat { Clip(k, |content|) }

  /** An empty file still takes one program. */
  function Count(content: seq<byte>): nat {
    if content == [] then 1 else (|content| + PUT_CHUNK - 1) / PUT_CHUNK
  }

  function Programs(path: string, content: seq<byte>): seq<Program> {
    seq(Count(content), i requires 0 <= i < Count(content) => Program(path, i > 0, Chunk(content, i)))
  }

  method PutPrograms(path: string, content: seq<byte>) returns (r: Result<seq<string>, Refusal>)
    ensures r.Failure? <==> |content| > MAX_FILE_BYTES || !CheckPath(path)
    ensures r.Failure? ==> r.error == if |content| > 32768 then WriteTooLarge else InvalidPath
    ensures r.Success? ==> |r.value| == Count(content)
    ensures r.Success? ==> forall i :: 0 <= i < |r.value| ==> r.value[i] == Text(Programs(path, content)[i])
  {
    if |content| > MAX_FILE_BYTES {
      return Failure(WriteTooLarge);
    }
    if !CheckPath(path) {
      return Failure(InvalidPath);
    }
    var programs: seq<string> := [];
    while |programs| < Count(content)
      invariant |programs| <= Count(content)
      invariant forall i :: 0 <= i < |programs| ==> programs[i] == Text(Programs(path, content)[i])
    {
      var index := |programs|;
      programs := programs + [Text(Program(path, index > 0, Chunk(content, index)))];
    }
    return Success(programs);
  }

  // ------------------------------------------------------------------ the board reads a program

  function Strip(s: string, prefix: string): Option<string> {
    if prefix <= s then Some(s[|prefix|..]) else None
  }

  /** Up to the next c, and what follows it, c included. */
  function Until(s: string, c: char): (string, string) {
    if s == "" || s[0] == c then ("", s)
    else
      var (word, rest) := Until(s[1..], c);
      ([s[0]] + word, rest)
  }

  /** The statements of a program, as the interpreter finds their literals. */
  function Read(text: string): Option<Program> {
    match Strip(text, "import ubinascii, os\nf = open(\"")
    case None => None
    case Some(s1) =>
      var (path, s2) := Until(s1, '"');
      match Strip(s2, "\", '")
      case None => None
      case Some(s3) => ReadBody(path, s3)
  }

  function ReadBody(path: string, s: string): Option<Program> {
    if |s| < 2 || s[1] != 'b' || (s[0] != 'a' && s[0] != 'w') then None
    else
      match Strip(s[2..], "')\nf.write(ubinascii.a2b_base64('")
      case None => None
      case Some(s1) =>
        var (literal, s2) := Until(s1, '\'');
        match (Strip(s2, "'))\nf.close()\nprint(os.stat(\""), Base64.Decode(literal))
        case (Some(s3), Some(data)) => if s3 == path + "\")[6])\n" then Some(Program(path, s[0] == 'a', data)) else None
        case _ => None
  }

  predicate PathText(s: string) { forall i :: 0 <= i < |s| ==> s[i] == '/' || PathChar(s[i]) }

  lemma {:induction false} SplitText(s: string)
    requires forall i :: 0 <= i < |TopicFilters.Split(s)| ==> PathText(TopicFilters.Split(s)[i])
    ensures PathText(s)
  {
    if s != "" {
      var rest := TopicFilters.Split(s[1..]);
      var levels := TopicFilters.Split(s);
      if s[0] == '/' {
        assert forall i :: 0 <= i < |rest| ==> rest[i] == levels[i + 1];
      } else {
        assert forall i :: 0 < i < |rest| ==> rest[i] == levels[i];
        assert forall i :: 0 <= i < |rest[0]| ==> rest[0][i] == levels[0][i + 1];
        assert levels[0][0] == s[0];
      }
      SplitText(s[1..]);
    }
  }

  lemma {:induction false} CheckedPathIsPlain(path: string)
    requires CheckPath(path)
    ensures PathText(path) && '"' !in path
  {
    if path != "/" {
      var names := Relative(path);
      forall i | 0 <= i < |TopicFilters.Split(names)| ensures PathText(TopicFilters.Split(names)[i]) {
        assert GoodName(TopicFilters.Split(names)[i]);
      }
      SplitText(names);
    }
  }

  /** The raw REPL's command characters, which `run` refuses in a program. */
  predicate Control(c: char) {
    (c < ' ' && c != '\t' && c != '\n' && c != '\r') || c == '\U{7f}'
  }

  predicate Sendable(s: string) { forall i :: 0 <= i < |s| ==> !Control(s[i]) }

  lemma {:induction false} BothSendable(a: string, b: string)
    requires Sendable(a) && Sendable(b)
    ensures Sendable(a + b)
  {
  }

  lemma {:induction false} LiteralsSendable(data: seq<byte>)
    ensures Sendable(HEAD) && Sendable(MODE) && Sendable(WRITE) && Sendable(CLOSE) && Sendable(TAIL)
    ensures Sendable("ab") && Sendable("wb") && Sendable(Base64.Encode(data))
  {
    HeadSendable();
    WriteSendable();
    CloseSendable();
    Base64Sendable(data);
  }

  lemma {:induction false} HeadSendable()
    ensures Sendable(HEAD)
  {
  }

  lemma {:induction false} WriteSendable()
    ensures Sendable(WRITE)
  {
  }

  lemma {:induction false} CloseSendable()
    ensures Sendable(CLOSE)
  {
  }

  lemma {:induction false} Base64Sendable(data: seq<byte>)
    ensures Sendable(Base64.Encode(data))
  {
    Base64.EncodingIsPlain(data);
  }

  /** No program for a checked path is ever refused for its characters. */
  lemma {:induction false} ProgramsAreSendable(p: Program)
    requires CheckPath(p.path)
    ensures Sendable(Text(p))
  {
    CheckedPathIsPlain(p.path);
    LiteralsSendable(p.data);
    BothSendable(p.path, TAIL);
    BothSendable(CLOSE, p.path + TAIL);
    var literal := Base64.Encode(p.data) + (CLOSE + (p.path + TAIL));
    BothSendable(Base64.Encode(p.data), CLOSE + (p.path + TAIL));
    BothSendable(WRITE, literal);
    var body := WRITE + literal;
    var mode := if p.append then "ab" else "wb";
    BothSendable(mode, body);
    BothSendable(MODE, mode + body);
    BothSendable(p.path, MODE + (mode + body));
    BothSendable(HEAD, p.path + (MODE + (mode + body)));
  }

  lemma {:induction false} UntilStops(word: string, rest: string, c: char)
    requires c !in word && rest != "" && rest[0] == c
    ensures Until(word + rest, c) == (word, rest)
  {
    if word == "" {
      assert word + rest == rest;
    } else {
      assert (word + rest)[1..] == word[1..] + rest && [word[0]] + word[1..] == word;
      UntilStops(word[1..], rest, c);
    }
  }

  lemma {:induction false} StripFront(prefix: string, rest: string)
    ensures Strip(prefix + rest, prefix) == Some(rest)
  {
  }

  /** No path and no content can end its literal early: the board reads back the very program. */
  lemma {:induction false} ReadUndoesText(p: Program)
    requires '"' !in p.path
    ensures Read(Text(p)) == Some(p)
  {
    var (literal, end) := (Base64.Encode(p.data), CLOSE + (p.path + TAIL));
    var body := (if p.append then "ab" else "wb") + (WRITE + (literal + end));
    StripFront(HEAD, p.path + (MODE + body));
    assert (MODE + body)[0] == '"';
    UntilStops(p.path, MODE + body, '"');
    StripFront(MODE, body);
    BodyReads(p, body);
  }

  lemma {:induction false} BodyReads(p: Program, body: string)
    requires body == (if p.append then "ab" else "wb") + (WRITE + (Base64.Encode(p.data) + (CLOSE + (p.path + TAIL))))
    ensures ReadBody(p.path, body) == Some(p)
  {
    var (literal, end) := (Base64.Encode(p.data), CLOSE + (p.path + TAIL));
    assert body[2..] == WRITE + (literal + end);
    StripFront(WRITE, literal + end);
    Base64.EncodingIsPlain(p.data);
    assert end[0] == '\'';
    UntilStops(literal, end, '\'');
    StripFront(CLOSE, p.path + TAIL);
    Base64.EncodeRoundTrip(p.data);
  }

  // ------------------------------------------------------------------ running them

  type Files = map<string, seq<byte>>

  function Contents(files: Files, path: string): seq<byte> { if path in files then files[path] else [] }

  /** The first `kept` bytes of the program's write have reached the file. */
  function Partly(files: Files, p: Program, kept: nat): Files
    requires kept <= |p.data|
  {
    files[p.path := (if p.append then Contents(files, p.path) else []) + p.data[..kept]]
  }

  function Apply(files: Files, p: Program): Files { Partly(files, p, |p.data|) }

  function ApplyFirst(files: Files, programs: seq<Program>, k: nat): Files
    requires k <= |programs|
  {
    if k == 0 then files else Apply(ApplyFirst(files, programs, k - 1), programs[k - 1])
  }

  lemma {:induction false} ApplyIs(files: Files, p: Program)
    ensures Apply(files, p) == files[p.path := (if p.append then Contents(files, p.path) else []) + p.data]
  {
    assert p.data[..|p.data|] == p.data;
  }

  /** After k programs the file holds exactly what k chunks cover, whatever it held before, and no
      other file has changed. */
  lemma {:induction false} FirstProgramsWritePrefix(files: Files, path: string, content: seq<byte>, k: nat)
    requires 0 < k <= Count(content)
    ensures ApplyFirst(files, Programs(path, content), k) == files[path := content[..Covered(content, k)]]
  {
    var programs := Programs(path, content);
    if k == 1 {
      FirstChunk(files, path, content);
    } else {
      FirstProgramsWritePrefix(files, path, content, k - 1);
      NextChunk(files, path, content, k - 1);
    }
  }

  lemma {:induction false} FirstChunk(files: Files, path: string, content: seq<byte>)
    ensures Apply(files, Programs(path, content)[0]) == files[path := content[..Covered(content, 1)]]
  {
    ApplyIs(files, Programs(path, content)[0]);
    assert [] + Chunk(content, 0) == content[..Covered(content, 1)];
  }

  lemma {:induction false} NextChunk(files: Files, path: string, content: seq<byte>, k: nat)
    requires 0 < k < Count(content)
    ensures Apply(files[path := content[..Covered(content, k)]], Programs(path, content)[k])
            == files[path := content[..Covered(content, k + 1)]]
  {
    ApplyIs(files[path := content[..Covered(content, k)]], Programs(path, content)[k]);
    ChunksMeet(content, k);
  }

  /** The size each program prints is the one `mpy_put` expects. */
  lemma {:induction false} SizeIsExpected(files: Files, path: string, content: seq<byte>, k: nat)
    requires 0 < k <= Count(content)
    ensures var written := ApplyFirst(files, Programs(path, content), k);
            path in written && |written[path]| == Covered(content, k)
  {
    FirstProgramsWritePrefix(files, path, content, k);
  }

  lemma {:induction false} NextProgram(files: Files, path: string, content: seq<byte>, k: nat)
    requires k < Count(content) && '"' !in path
    ensures var p := Programs(path, content)[k];
            Read(Text(p)) == Some(p)
            && |Apply(ApplyFirst(files, Programs(path, content), k), p)[p.path]| == Covered(content, k + 1)
  {
    ReadUndoesText(Programs(path, content)[k]);
    SizeIsExpected(files, path, content, k + 1);
  }

  lemma {:induction false} ChunksMeet(content: seq<byte>, i: nat)
    requires 0 < i < Count(content)
    ensures Covered(content, i) == i * PUT_CHUNK
    ensures content[..Covered(content, i)] + Chunk(content, i) == content[..Covered(content, i + 1)]
  {
  }

  /** All of them leave the content itself, down to the empty file. */
  lemma {:induction false} ProgramsWriteContent(files: Files, path: string, content: seq<byte>)
    ensures ApplyFirst(files, Programs(path, content), Count(content)) == files[path := content]
  {
    FirstProgramsWritePrefix(files, path, content, Count(content));
    AllIsCovered(content);
    assert content[..|content|] == content;
  }

  lemma {:induction false} AllIsCovered(content: seq<byte>)
    ensures Covered(content, Count(content)) == |content|
  {
  }

  /** What becomes of one run: it works; it writes less than it was given, says nothing of it and prints
      the size the file then has; or it breaks off with some of its effect done, by an exception on the
      board (which ends the run with nothing printed) or without ever finishing. */
  datatype Fate = Works | WritesShort(kept: nat) | Breaks(reached: bool, kept: nat, raised: bool)
  datatype Ran = Finished(stdout: string) | Unfinished

  /** What a run that broke off may leave of a program. */
  ghost predicate Broken(before: Files, after: Files, p: Program) {
    after == before || exists kept: nat :: kept <= |p.data| && after == Partly(before, p, kept)
  }

  /** Only this file changed; it holds a prefix of the content, with at least `done` chunks of it
      if any run finished. */
  ghost predicate Incomplete(before: Files, after: Files, path: string, content: seq<byte>, done: nat) {
    (done == 0 && after == before)
    || exists n: nat :: Covered(content, done) <= n <= |content| && after == before[path := content[..n]]
  }

  /** The size printed is the expected one only if all of the data is in the file. */
  lemma {:induction false} SizeTellsAll(files: Files, p: Program, kept: nat, expected: nat)
    requires kept <= |p.data| && |Apply(files, p)[p.path]| == expected
    requires LineProtocol.Decimal(|Partly(files, p, kept)[p.path]|) == LineProtocol.Decimal(expected)
    ensures kept == |p.data|
  {
    LineProtocol.DecimalRoundTrip(|Partly(files, p, kept)[p.path]|);
    LineProtocol.DecimalRoundTrip(expected);
  }

  class Board {
    const fates: nat -> Fate
    var runs: nat
    var files: Files

    constructor (files: Files, fates: nat -> Fate)
      ensures this.files == files
    {
      this.files, this.fates, this.runs := files, fates, 0;
    }

    /** A size printed is the true size, whatever part of the program's data is in the file. */
    method Run(text: string, ghost p: Program) returns (r: Ran)
      requires Read(text) == Some(p)
      modifies this
      ensures r.Finished? && r.stdout != "" ==> p.path in files && r.stdout == LineProtocol.Decimal(|files[p.path]|)
      ensures r.Finished? && r.stdout != "" ==> exists kept: nat :: kept <= |p.data| && files == Partly(old(files), p, kept)
      ensures r.Unfinished? || r.stdout == "" ==> Broken(old(files), files, p)
      ensures runs == old(runs) + 1
      ensures fates(old(runs)).Works? ==> r.Finished? && r.stdout != "" && files == Apply(old(files), p)
    {
      var q := Read(text).value;
      var fate := fates(runs);
      runs := runs + 1;
      match fate {
        case Works =>
          files := Apply(files, q);
          return Finished(LineProtocol.Decimal(|files[q.path]|));
        case WritesShort(kept) =>
          files := Partly(files, q, if kept < |q.data| then kept else |q.data|);
          return Finished(LineProtocol.Decimal(|files[q.path]|));
        case Breaks(reached, kept, raised) =>
          if reached {
            files := Partly(files, q, if kept < |q.data| then kept else |q.data|);
          }
          return if raised then Finished("") else Unfinished;
      }
    }

    /** One chunk: run its program, and compare the size it prints with what should be there. */
    method WriteOne(text: string, expected: nat, ghost p: Program) returns (ok: bool)
      requires Read(text) == Some(p) && |Apply(files, p)[p.path]| == expected
      modifies this
      ensures if ok then files == Apply(old(files), p) else Broken(old(files), files, p)
      ensures runs == old(runs) + 1 && (fates(old(runs)).Works? ==> ok)
    {
      var result := Run(text, p);
      ok := result.Finished? && result.stdout == LineProtocol.Decimal(expected);
      if ok {
        ghost var kept: nat :| kept <= |p.data| && files == Partly(old(files), p, kept);
        SizeTellsAll(old(files), p, kept, expected);
      }
    }

    /** `write_all` in server.py. When it stops after `done` chunks the file holds at least those. */
    method WriteAll(programs: seq<string>, length: nat, ghost path: string, ghost content: seq<byte>) returns (ok: bool, done: nat)
      requires length == |content| && '"' !in path && |programs| == Count(content)
      requires forall i :: 0 <= i < |programs| ==> programs[i] == Text(Programs(path, content)[i])
      modifies this
      ensures ok ==> done == |programs| && files == old(files)[path := content]
      ensures !ok ==> done < |programs| && Incomplete(old(files), files, path, content, done)
      ensures (forall i :: fates(i).Works?) ==> ok
    {
      done := 0;
      while done < |programs|
        invariant done <= |programs| && files == ApplyFirst(old(files), Programs(path, content), done)
      {
        var expected := Clip(done + 1, length);
        ghost var before := files;
        NextProgram(old(files), path, content, done);
        ok := WriteOne(programs[done], expected, Programs(path, content)[done]);
        if !ok {
          BrokenIsPrefix(old(files), before, files, path, content, done);
          return;
        }
        done := done + 1;
      }
      ProgramsWriteContent(old(files), path, content);
      ok := true;
    }

    /** `mpy_put`: on a board that works, every accepted file is written whole. */
    method Put(path: string, content: seq<byte>) returns (r: Result<bool, Refusal>)
      modifies this
      ensures r.Failure? <==> |content| > MAX_FILE_BYTES || !CheckPath(path)
      ensures r.Failure? ==> files == old(files) && r.error == if |content| > 32768 then WriteTooLarge else InvalidPath
      ensures r == Success(true) ==> files == old(files)[path := content]
      ensures r == Success(false) ==> exists done :: Incomplete(old(files), files, path, content, done)
      ensures (forall i :: fates(i).Works?) ==> r != Success(false)
    {
      var programs := PutPrograms(path, content);
      if programs.Failure? {
        return Failure(programs.error);
      }
      CheckedPathIsPlain(path);
      var ok, done := WriteAll(programs.value, |content|, path, content);
      return Success(ok);
    }
  }

  lemma {:induction false} BrokenIsPrefix(start: Files, before: Files, after: Files, path: string, content: seq<byte>, done: nat)
    requires done < Count(content) && before == ApplyFirst(start, Programs(path, content), done)
    requires Broken(before, after, Programs(path, content)[done])
    ensures Incomplete(start, after, path, content, done)
  {
    var p := Programs(path, content)[done];
    if done > 0 {
      FirstProgramsWritePrefix(start, path, content, done);
    }
    if after == before {
      assert done > 0 ==> after == start[path := content[..Covered(content, done)]];
    } else {
      var kept: nat :| kept <= |p.data| && after == Partly(before, p, kept);
      PartlyIsPrefix(start, before, path, content, done, kept);
    }
  }

  lemma {:induction false} PartlyIsPrefix(start: Files, before: Files, path: string, content: seq<byte>, done: nat, kept: nat)
    requires done < Count(content) && kept <= |Chunk(content, done)|
    requires before == if done == 0 then start else start[path := content[..Covered(content, done)]]
    ensures Covered(content, done) + kept <= |content|
    ensures Partly(before, Programs(path, content)[done], kept) == start[path := content[..Covered(content, done) + kept]]
  {
    var data := Chunk(content, done);
    if done == 0 {
      assert [] + data[..kept] == content[..kept];
    } else {
      ChunksMeet(content, done);
      assert content[..Covered(content, done)] + data[..kept] == content[..Covered(content, done) + kept];
    }
  }
}

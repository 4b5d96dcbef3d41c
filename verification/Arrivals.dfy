/**
 Boards plugged in and out (BoardsModel.js, Panel.qml): naming the boards of one scan, and telling
 an arrival from a board that was reset.
*/
module Arrivals {

  datatype Board = Board(vid: string, pid: string, serial: string, port: string, unknown: bool)

  const ARRIVAL_GRACE_MS: int := 60000

  function ArrivalGrace(intervalMs: int): int {
    if 3 * intervalMs > ARRIVAL_GRACE_MS then 3 * intervalMs else ARRIVAL_GRACE_MS
  }

  // ------------------------------------------------------------------ keys of one scan

  function BoardKey(b: Board): string {
    b.vid + "|" + b.pid + "|" + b.serial + "|" + (if b.serial != "" then "" else b.port)
  }

  lemma {:induction false} BarSplits(x: string, s: string, y: string, t: string)
    requires '|' !in x && '|' !in y
    ensures x + "|" + s == y + "|" + t <==> x == y && s == t
  {
    var (u, v) := (x + "|" + s, y + "|" + t);
    assert u[0] == (if x == "" then '|' else x[0]) && v[0] == (if y == "" then '|' else y[0]);
    if x == "" && y == "" {
      assert u[1..] == s && v[1..] == t;
    } else if x != "" && y != "" {
      BarSplits(x[1..], s, y[1..], t);
      assert u == [x[0]] + (x[1..] + "|" + s) && v == [y[0]] + (y[1..] + "|" + t);
      assert x == [x[0]] + x[1..] && y == [y[0]] + y[1..];
      assert u[1..] == x[1..] + "|" + s && v[1..] == y[1..] + "|" + t;
    }
  }

  predicate Plain(b: Board) { '|' !in b.vid && '|' !in b.pid && '|' !in b.serial }

  /** What a plain key identifies: the kind of board with its serial number or, without one, its port. */
  lemma {:induction false} SameKeyIff(a: Board, b: Board)
    requires Plain(a) && Plain(b)
    ensures BoardKey(a) == BoardKey(b)
            <==> a.vid == b.vid && a.pid == b.pid && a.serial == b.serial && (a.serial == "" ==> a.port == b.port)
  {
    var (p, q) := (if a.serial != "" then "" else a.port, if b.serial != "" then "" else b.port);
    var (s, t) := (a.serial + "|" + p, b.serial + "|" + q);
    assert BoardKey(a) == a.vid + "|" + (a.pid + "|" + s) && BoardKey(b) == b.vid + "|" + (b.pid + "|" + t);
    BarSplits(a.vid, a.pid + "|" + s, b.vid, b.pid + "|" + t);
    BarSplits(a.pid, s, b.pid, t);
    BarSplits(a.serial, p, b.serial, q);
  }

  function PortKey(b: Board): string { BoardKey(b) + "|" + b.port }

  function Count(boards: seq<Board>, key: string): nat {
    if boards == [] then 0
    else
      var n := |boards| - 1;
      Count(boards[..n], key) + if BoardKey(boards[n]) == key then 1 else 0
  }

  predicate Twin(boards: seq<Board>, b: Board) { Count(boards, BoardKey(b)) > 1 }

  /** Tracked under its port already, and still ambiguous. */
  predicate Kept(boards: seq<Board>, known: set<string>, b: Board) { Twin(boards, b) && PortKey(b) in known }

  datatype Naming = Naming(keys: seq<string>, taken: set<string>)

  /** The second pass over the first n boards. */
  function Name(boards: seq<Board>, known: set<string>, n: nat): Naming
    requires n <= |boards|
  {
    if n == 0 then Naming([], {})
    else
      var (before, b) := (Name(boards, known, n - 1), boards[n - 1]);
      var key := BoardKey(b);
      if Kept(boards, known, b) || (Twin(boards, b) && key in before.taken)
      then before.(keys := before.keys + [PortKey(b)])
      else Naming(before.keys + [key], before.taken + {key})
  }

  function ScanKeys(boards: seq<Board>, known: set<string>): (keys: seq<string>)
    ensures |keys| == |boards|
  {
    NameLength(boards, known, |boards|);
    Name(boards, known, |boards|).keys
  }

  lemma {:induction false} NameLength(boards: seq<Board>, known: set<string>, n: nat)
    requires n <= |boards|
    ensures |Name(boards, known, n).keys| == n
  {
    if n > 0 { NameLength(boards, known, n - 1); }
  }

  method CountKeys(boards: seq<Board>) returns (counts: map<string, nat>)
    ensures forall i :: 0 <= i < |boards| ==> BoardKey(boards[i]) in counts && counts[BoardKey(boards[i])] == Count(boards, BoardKey(boards[i]))
  {
    counts := map[];
    var i := 0;
    while i < |boards|
      invariant i <= |boards|
      invariant forall key :: (key in counts <==> Count(boards[..i], key) > 0)
      invariant forall key :: key in counts ==> counts[key] == Count(boards[..i], key)
    {
      var key := BoardKey(boards[i]);
      assert boards[..i + 1][..i] == boards[..i];
      counts := counts[key := (if key in counts then counts[key] else 0) + 1];
      i := i + 1;
    }
    assert boards[..|boards|] == boards;
    BoardsAreCounted(boards);
  }

  method ScanKeysLoop(boards: seq<Board>, known: set<string>) returns (keys: seq<string>)
    ensures keys == ScanKeys(boards, known)
  {
    var counts := CountKeys(boards);
    var kept: seq<bool> := [];
    while |kept| < |boards|
      invariant |kept| <= |boards| && forall j :: 0 <= j < |kept| ==> kept[j] == Kept(boards, known, boards[j])
    {
      var b := boards[|kept|];
      kept := kept + [counts[BoardKey(b)] > 1 && PortKey(b) in known];
    }
    var plainTaken: set<string> := {};
    keys := [];
    while |keys| < |boards|
      invariant |keys| <= |boards| && Name(boards, known, |keys|) == Naming(keys, plainTaken)
    {
      var b := boards[|keys|];
      var key := BoardKey(b);
      if kept[|keys|] || (counts[key] > 1 && key in plainTaken) {
        keys := keys + [PortKey(b)];
      } else {
        plainTaken := plainTaken + {key};
        keys := keys + [key];
      }
    }
  }

  lemma {:induction false} CountsThis(boards: seq<Board>, i: nat)
    requires i < |boards|
    ensures Count(boards, BoardKey(boards[i])) > 0
  {
    var n := |boards| - 1;
    if i < n { CountsThis(boards[..n], i); }
  }

  lemma {:induction false} BoardsAreCounted(boards: seq<Board>)
    ensures forall i :: 0 <= i < |boards| ==> Count(boards, BoardKey(boards[i])) > 0
  {
    forall i | 0 <= i < |boards| ensures Count(boards, BoardKey(boards[i])) > 0 { CountsThis(boards, i); }
  }

  // ------------------------------------------------------------------ when keys are distinct

  predicate EndsWith(s: string, end: string) { |end| <= |s| && s[|s| - |end|..] == end }

  /** Port x can be mistaken: alone, or for port y. */
  predicate Clash(x: string, y: string) {
    x == "" || x[|x| - 1] == '|' || EndsWith("||" + x, "||" + y)
  }

  predicate Clean(boards: seq<Board>) {
    forall i, j :: 0 <= i < |boards| && 0 <= j < |boards| && i != j ==> !Clash(boards[i].port, boards[j].port)
  }

  predicate Distinct(keys: seq<string>) {
    forall i, j :: 0 <= i < j < |keys| ==> keys[i] != keys[j]
  }

  lemma {:induction false} SuffixOfSuffix(s: string, a: string, b: string)
    requires EndsWith(s, a) && EndsWith(s, b) && |a| <= |b|
    ensures EndsWith(b, a)
  {
    assert b[|b| - |a|..] == s[|s| - |b|..][|b| - |a|..];
  }

  lemma {:induction false} EndsAppend(a: string, b: string)
    ensures EndsWith(a + b, b)
  {
  }

  /** A key that names its port ends with it, after two bars; one that does not ends with a bar. */
  lemma {:induction false} KeyEnds(b: Board)
    ensures b.serial == "" ==> EndsWith(BoardKey(b), "||" + b.port)
    ensures b.serial != "" ==> EndsWith(BoardKey(b), "|") && EndsWith(PortKey(b), "||" + b.port)
  {
    if b.serial == "" {
      assert BoardKey(b) == (b.vid + "|" + b.pid) + ("||" + b.port);
    } else {
      assert BoardKey(b) == (b.vid + "|" + b.pid + "|" + b.serial) + "|";
      assert PortKey(b) == (b.vid + "|" + b.pid + "|" + b.serial) + ("||" + b.port);
    }
  }

  lemma {:induction false} NotBoth(s: string, x: string, y: string)
    requires !Clash(x, y) && !Clash(y, x) && EndsWith(s, "||" + x)
    ensures !EndsWith(s, "||" + y) && !EndsWith(s, "|")
  {
    if EndsWith(s, "||" + y) {
      if |x| <= |y| { SuffixOfSuffix(s, "||" + x, "||" + y); } else { SuffixOfSuffix(s, "||" + y, "||" + x); }
    }
    LastChar(s, "||" + x);
  }

  lemma {:induction false} LastChar(s: string, end: string)
    requires EndsWith(s, end) && end != ""
    ensures s != "" && s[|s| - 1] == end[|end| - 1]
  {
  }

  lemma {:induction false} OtherTwin(boards: seq<Board>, i: nat) returns (j: nat)
    requires i < |boards| && Twin(boards, boards[i])
    ensures j < |boards| && j != i && BoardKey(boards[j]) == BoardKey(boards[i])
  {
    j := FindTwin(boards, BoardKey(boards[i]), i);
  }

  lemma {:induction false} FindTwin(boards: seq<Board>, key: string, i: nat) returns (j: nat)
    requires Count(boards, key) > (if i < |boards| && BoardKey(boards[i]) == key then 1 else 0)
    ensures j < |boards| && j != i && BoardKey(boards[j]) == key
  {
    var n := |boards| - 1;
    if n != i && BoardKey(boards[n]) == key {
      j := n;
    } else {
      j := FindTwin(boards[..n], key, i);
    }
  }

  /** On clean ports only a board with a serial ever has a twin. */
  lemma {:induction false} TwinsHaveSerials(boards: seq<Board>, i: nat)
    requires Clean(boards) && i < |boards| && Twin(boards, boards[i])
    ensures boards[i].serial != ""
  {
    if boards[i].serial == "" {
      var j := OtherTwin(boards, i);
      KeyEnds(boards[i]);
      KeyEnds(boards[j]);
      NotBoth(BoardKey(boards[i]), boards[i].port, boards[j].port);
    }
  }

  /** What the naming has done by board n. */
  predicate Named(boards: seq<Board>, naming: Naming, i: nat)
    requires i < |naming.keys| <= |boards|
  {
    var b := boards[i];
    if naming.keys[i] == BoardKey(b) then BoardKey(b) in naming.taken
    else naming.keys[i] == PortKey(b) && Twin(boards, b)
  }

  predicate OnePlain(boards: seq<Board>, keys: seq<string>)
    requires |keys| <= |boards|
  {
    forall i, j :: 0 <= i < j < |keys| && keys[i] == BoardKey(boards[i]) && keys[j] == BoardKey(boards[j]) ==>
      keys[i] != keys[j]
  }

  lemma {:induction false} NamingShape(boards: seq<Board>, known: set<string>, n: nat)
    requires n <= |boards|
    ensures var naming := Name(boards, known, n);
            |naming.keys| == n && (forall i: nat :: i < n ==> Named(boards, naming, i)) && OnePlain(boards, naming.keys)
  {
    if n > 0 {
      NamingShape(boards, known, n - 1);
      var (before, after, b) := (Name(boards, known, n - 1), Name(boards, known, n), boards[n - 1]);
      forall i: nat | i < n ensures Named(boards, after, i) {
        if i < n - 1 { assert Named(boards, before, i); }
      }
      forall i: nat | i < n - 1 && before.keys[i] == BoardKey(boards[i]) == BoardKey(b) ensures after.keys[n - 1] != BoardKey(b) {
        assert Named(boards, before, i);
        TwoCount(boards, i, n - 1);
      }
    }
  }

  lemma {:induction false} TwoCount(boards: seq<Board>, i: nat, j: nat)
    requires i < j < |boards| && BoardKey(boards[i]) == BoardKey(boards[j])
    ensures Twin(boards, boards[i])
  {
    var n := |boards| - 1;
    if j < n { TwoCount(boards[..n], i, j); } else { CountsThis(boards[..n], i); }
  }

  /** On clean ports every board of a scan has a key of its own, whatever was known before. */
  lemma {:induction false} CleanPortsHaveDistinctKeys(boards: seq<Board>, known: set<string>)
    requires Clean(boards)
    ensures Distinct(ScanKeys(boards, known))
  {
    var naming := Name(boards, known, |boards|);
    NamingShape(boards, known, |boards|);
    forall i, j | 0 <= i < j < |boards| ensures naming.keys[i] != naming.keys[j] {
      assert Named(boards, naming, i) && Named(boards, naming, j);
      KeysDiffer(boards, naming, i, j);
    }
  }

  lemma {:induction false} KeysDiffer(boards: seq<Board>, naming: Naming, i: nat, j: nat)
    requires |naming.keys| == |boards| && i < j < |boards| && Clean(boards)
    requires Named(boards, naming, i) && Named(boards, naming, j) && OnePlain(boards, naming.keys)
    ensures naming.keys[i] != naming.keys[j]
  {
    var (a, b) := (boards[i], boards[j]);
    assert !Clash(a.port, b.port) && !Clash(b.port, a.port);
    if BoardKey(a) == BoardKey(b) {
      TwinsDiffer(a, b);
    } else if naming.keys[i] != BoardKey(a) {
      TwinsHaveSerials(boards, i);
      OthersDiffer(a, b);
      if naming.keys[j] != BoardKey(b) { TwinsHaveSerials(boards, j); }
    } else if naming.keys[j] != BoardKey(b) {
      TwinsHaveSerials(boards, j);
      OthersDiffer(b, a);
    }
  }

  lemma {:induction false} TwinsDiffer(a: Board, b: Board)
    requires BoardKey(a) == BoardKey(b) && !Clash(a.port, b.port)
    ensures PortKey(a) != BoardKey(b) && PortKey(b) != BoardKey(a) && PortKey(a) != PortKey(b)
  {
    var key := BoardKey(a);
    assert |PortKey(a)| > |key| && |PortKey(b)| > |key|;
    assert PortKey(a)[|key| + 1..] == a.port && PortKey(b)[|key| + 1..] == b.port;
    EndsAppend("", "||" + a.port);
  }

  lemma {:induction false} OthersDiffer(a: Board, b: Board)
    requires a.serial != "" && !Clash(a.port, b.port) && !Clash(b.port, a.port)
    ensures PortKey(a) != BoardKey(b) && (b.serial != "" ==> PortKey(a) != PortKey(b))
  {
    KeyEnds(a);
    KeyEnds(b);
    NotBoth(PortKey(a), a.port, b.port);
  }

  lemma {:induction false} TakenByOne(boards: seq<Board>, known: set<string>, n: nat, key: string) returns (j: nat)
    requires n <= |boards| && key in Name(boards, known, n).taken
    ensures j < n == |Name(boards, known, n).keys| && Name(boards, known, n).keys[j] == key == BoardKey(boards[j])
  {
    NameLength(boards, known, n);
    NameLength(boards, known, n - 1);
    if key in Name(boards, known, n - 1).taken { j := TakenByOne(boards, known, n - 1, key); } else { j := n - 1; }
  }

  lemma {:induction false} TakenStays(boards: seq<Board>, known: set<string>, i: nat, n: nat)
    requires i < n <= |boards| && !Kept(boards, known, boards[i])
    ensures BoardKey(boards[i]) in Name(boards, known, n).taken
  {
    if i < n - 1 { TakenStays(boards, known, i, n - 1); }
  }

  /** Unless every twin is tracked under its port, one of them has the plain key: plugging in a twin
      does not announce the board that was there. */
  lemma {:induction false} OneTwinIsPlain(boards: seq<Board>, known: set<string>, i: nat) returns (j: nat)
    requires i < |boards| && !Kept(boards, known, boards[i])
    ensures j < |boards| && ScanKeys(boards, known)[j] == BoardKey(boards[i]) == BoardKey(boards[j])
  {
    TakenStays(boards, known, i, |boards|);
    j := TakenByOne(boards, known, |boards|, BoardKey(boards[i]));
  }

  predicate DistinctPorts(boards: seq<Board>) {
    forall i, j :: 0 <= i < j < |boards| ==> boards[i].port != boards[j].port
  }

  function Earlier(boards: seq<Board>, n: nat): set<string>
    requires n <= |boards|
  {
    if n == 0 then {} else Earlier(boards, n - 1) + {BoardKey(boards[n - 1])}
  }

  lemma {:induction false} FindEarlier(boards: seq<Board>, n: nat, key: string) returns (i: nat)
    requires n <= |boards| && key in Earlier(boards, n)
    ensures i < n && BoardKey(boards[i]) == key
  {
    if BoardKey(boards[n - 1]) == key { i := n - 1; } else { i := FindEarlier(boards, n - 1, key); }
  }

  /** With nothing known, the first board of its key is plain and its twins are not. */
  lemma {:induction false} NothingKnown(boards: seq<Board>, n: nat)
    requires n <= |boards|
    ensures var naming := Name(boards, {}, n);
            |naming.keys| == n && naming.taken == Earlier(boards, n)
            && forall i: nat :: i < n ==> naming.keys[i] == FirstKey(boards, i)
  {
    hide Count, BoardKey, PortKey;
    if n > 0 {
      NothingKnown(boards, n - 1);
      var key := BoardKey(boards[n - 1]);
      if key in Earlier(boards, n - 1) {
        var i := FindEarlier(boards, n - 1, key);
        TwoCount(boards, i, n - 1);
      }
    }
  }

  function FirstKey(boards: seq<Board>, i: nat): string
    requires i < |boards|
  {
    if BoardKey(boards[i]) in Earlier(boards, i) then PortKey(boards[i]) else BoardKey(boards[i])
  }

  lemma {:induction false} KeyText(b: Board)
    requires b.serial != ""
    ensures BoardKey(b) == b.vid + "|" + b.pid + "|" + (b.serial + "|")
    ensures PortKey(b) == b.vid + "|" + b.pid + "|" + (b.serial + "||" + b.port)
  {
  }

  /** Two ports that clash do get one key in some scan, though every board of it has a port of its own:
      the condition for distinct keys is exact. */
  lemma {:induction false} ClashingPortsCollide(x: string, y: string) returns (boards: seq<Board>, i: nat, j: nat)
    requires x != y && Clash(x, y)
    ensures DistinctPorts(boards) && 0 < i < |boards| && 0 < j < |boards| && i != j
    ensures boards[i].port == x && boards[j].port == y
    ensures ScanKeys(boards, {})[i] == ScanKeys(boards, {})[j]
  {
    if x == "" || x[|x| - 1] == '|' { boards, i, j := LoneClash(x, y); } else { boards, i, j := PairClash(x, y); }
  }

  lemma {:induction false} LoneClash(x: string, y: string) returns (boards: seq<Board>, i: nat, j: nat)
    requires x != y && (x == "" || x[|x| - 1] == '|')
    ensures DistinctPorts(boards) && 0 < i < |boards| && 0 < j < |boards| && i != j
    ensures boards[i].port == x && boards[j].port == y
    ensures ScanKeys(boards, {})[i] == ScanKeys(boards, {})[j]
  {
    LastOf("s" + "|", x);
    var s2 := CutSuffix("s" + "||" + x, "|");
    boards := ThreeBoards(s2, x, y);
    i, j := 1, 2;
    CollidePlain(boards, "s", s2, x);
  }

  lemma {:induction false} PairClash(x: string, y: string) returns (boards: seq<Board>, i: nat, j: nat)
    requires x != y && EndsWith("||" + x, "||" + y)
    ensures DistinctPorts(boards) && 0 < i < |boards| && 0 < j < |boards| && i != j
    ensures boards[i].port == x && boards[j].port == y
    ensures ScanKeys(boards, {})[i] == ScanKeys(boards, {})[j]
  {
    var front := CutSuffix("||" + x, "||" + y);
    var s2 := "s" + front;
    Associate("s", front, x, y);
    boards := FourBoards(s2, x, y);
    i, j := 1, 3;
    CollidePort(boards, "s", s2, x, y);
  }

  lemma {:induction false} Associate(s: string, front: string, x: string, y: string)
    requires front + ("||" + y) == "||" + x
    ensures s + front + "||" + y == s + "||" + x
  {
    assert s + front + "||" + y == s + (front + ("||" + y));
    assert s + ("||" + x) == s + "||" + x;
  }

  lemma {:induction false} LastOf(front: string, x: string)
    requires x == "" || x[|x| - 1] == '|'
    ensures EndsWith(front + "|" + x, "|")
  {
  }

  lemma {:induction false} CutSuffix(s: string, end: string) returns (front: string)
    requires EndsWith(s, end)
    ensures front + end == s
  {
    front := s[..|s| - |end|];
  }

  function Fresh(x: string, y: string, more: string): string { x + y + "z" + more }

  lemma {:induction false} ThreeBoards(s2: string, x: string, y: string) returns (boards: seq<Board>)
    requires x != y
    ensures DistinctPorts(boards) && |boards| == 3
    ensures boards[0].serial == "s" && boards[1] == Board("v", "p", "s", x, false) && boards[2] == Board("v", "p", s2, y, false)
    ensures forall b :: b in boards ==> b.vid == "v" && b.pid == "p"
  {
    var z := Fresh(x, y, "");
    assert |z| > |x| && |z| > |y|;
    boards := [Board("v", "p", "s", z, false), Board("v", "p", "s", x, false), Board("v", "p", s2, y, false)];
  }

  lemma {:induction false} FourBoards(s2: string, x: string, y: string) returns (boards: seq<Board>)
    requires x != y
    ensures DistinctPorts(boards) && |boards| == 4
    ensures boards[0].serial == "s" && boards[1] == Board("v", "p", "s", x, false)
    ensures boards[2].serial == s2 && boards[3] == Board("v", "p", s2, y, false)
    ensures forall b :: b in boards ==> b.vid == "v" && b.pid == "p"
  {
    var (z, zz) := (Fresh(x, y, ""), Fresh(x, y, "z"));
    assert |zz| > |z| > |x| && |z| > |y|;
    boards := [Board("v", "p", "s", z, false), Board("v", "p", "s", x, false),
               Board("v", "p", s2, zz, false), Board("v", "p", s2, y, false)];
  }

  lemma {:induction false} CollidePlain(boards: seq<Board>, s: string, s2: string, x: string)
    requires |boards| == 3 && s != "" && s2 + "|" == s + "||" + x
    requires forall b :: b in boards ==> b.vid == "v" && b.pid == "p"
    requires boards[0].serial == s && boards[1].serial == s && boards[2].serial == s2 && boards[1].port == x
    ensures ScanKeys(boards, {})[1] == ScanKeys(boards, {})[2]
  {
    NothingKnown(boards, 3);
    KeyText(boards[0]);
    KeyText(boards[1]);
    KeyText(boards[2]);
    assert Earlier(boards, 1) == {BoardKey(boards[0])};
    assert Earlier(boards, 2) == {BoardKey(boards[0])};
    assert |BoardKey(boards[2])| > |BoardKey(boards[0])|;
  }

  lemma {:induction false} CollidePort(boards: seq<Board>, s: string, s2: string, x: string, y: string)
    requires |boards| == 4 && s != "" && s2 != "" && s2 + "||" + y == s + "||" + x
    requires forall b :: b in boards ==> b.vid == "v" && b.pid == "p"
    requires boards[0].serial == s && boards[1].serial == s && boards[2].serial == s2 && boards[3].serial == s2
    requires boards[1].port == x && boards[3].port == y
    ensures ScanKeys(boards, {})[1] == ScanKeys(boards, {})[3]
  {
    NothingKnown(boards, 4);
    KeyText(boards[0]);
    KeyText(boards[1]);
    KeyText(boards[2]);
    KeyText(boards[3]);
    assert BoardKey(boards[0]) in Earlier(boards, 1) && BoardKey(boards[2]) in Earlier(boards, 3);
  }

  /** The ports Linux gives serial boards are clean: not empty, and with no bar in them. */
  lemma {:induction false} OrdinaryPortsAreClean(boards: seq<Board>)
    requires DistinctPorts(boards)
    requires forall b :: b in boards ==> b.port != "" && '|' !in b.port
    ensures Clean(boards)
  {
    forall i, j | 0 <= i < |boards| && 0 <= j < |boards| && i != j ensures !Clash(boards[i].port, boards[j].port) {
      var (x, y) := (boards[i].port, boards[j].port);
      assert boards[i] in boards && boards[j] in boards;
      if EndsWith("||" + x, "||" + y) { LongerHasBar(x, y); }
    }
  }

  lemma {:induction false} LongerHasBar(x: string, y: string)
    requires EndsWith("||" + x, "||" + y)
    ensures x == y || '|' in x
  {
    var (a, b) := ("||" + x, "||" + y);
    var d := |x| - |y|;
    assert a[d..][1] == '|' && a[d..][2..] == y;
    assert d > 0 ==> x[d - 1] == a[d + 1] == a[d..][1];
    assert d == 0 ==> x == a[d..][2..];
  }

  // ------------------------------------------------------------------ one scan

  type Seen = map<string, int>

  predicate IsDigit(c: char) { '0' <= c <= '9' }

  /** `PORT_PATTERN`. */
  predicate PortPattern(port: string) {
    var stem := if "/dev/ttyACM" <= port then "/dev/ttyACM" else "/dev/ttyUSB";
    stem <= port && |stem| < |port| <= |stem| + 3 && forall i :: |stem| <= i < |port| ==> IsDigit(port[i])
  }

  /** A port is `/dev/ttyACM` or `/dev/ttyUSB` with one to three figures behind it, and nothing else. */
  lemma {:induction false} PortPatternIff(port: string)
    ensures PortPattern(port) <==>
              exists n: string :: Figures(n) && (port == "/dev/ttyACM" + n || port == "/dev/ttyUSB" + n)
  {
    if PortPattern(port) {
      var stem := if "/dev/ttyACM" <= port then "/dev/ttyACM" else "/dev/ttyUSB";
      PortBehind(port, stem, port[11..]);
      assert Figures(port[11..]) && port == stem + port[11..];
    }
    if n: string :| Figures(n) && (port == "/dev/ttyACM" + n || port == "/dev/ttyUSB" + n) {
      PortStem(n);
      PortBehind(port, if port == "/dev/ttyACM" + n then "/dev/ttyACM" else "/dev/ttyUSB", n);
    }
  }

  predicate Figures(n: string) { 1 <= |n| <= 3 && forall i :: 0 <= i < |n| ==> '0' <= n[i] <= '9' }

  lemma {:induction false} PortStem(n: string)
    ensures !("/dev/ttyACM" <= "/dev/ttyUSB" + n)
  {
    assert ("/dev/ttyUSB" + n)[8] == 'U' && "/dev/ttyACM"[8] == 'A';
  }

  lemma {:induction false} PortBehind(port: string, stem: string, n: string)
    requires |stem| == 11 && stem <= port && n == port[11..]
    ensures port == stem + n && |port| == 11 + |n|
    ensures (forall i :: 11 <= i < |port| ==> '0' <= port[i] <= '9') <==> forall i :: 0 <= i < |n| ==> '0' <= n[i] <= '9'
  {
    assert forall i :: 11 <= i < |port| ==> port[i] == n[i - 11];
    assert forall i :: 0 <= i < |n| ==> n[i] == port[i + 11];
  }

  predicate Announceable(b: Board, includeUnknown: bool) {
    PortPattern(b.port) && (includeUnknown || !b.unknown)
  }

  function Prune(seen: Seen, now: int, grace: int): Seen {
    map key | key in seen && now - seen[key] <= grace :: seen[key]
  }

  predicate EffectivelyPrimed(primed: bool, lastOk: int, now: int, grace: int) {
    primed && !(lastOk > 0 && now - lastOk > grace)
  }

  datatype Tracked = Tracked(seen: Seen, arrived: seq<Board>)

  /** The first n boards of a scan. */
  function Note(seen: Seen, boards: seq<Board>, keys: seq<string>, now: int, primed: bool, includeUnknown: bool, n: nat): Tracked
    requires n <= |boards| == |keys|
  {
    if n == 0 then Tracked(seen, [])
    else
      var (t, b, key) := (Note(seen, boards, keys, now, primed, includeUnknown, n - 1), boards[n - 1], keys[n - 1]);
      Tracked(t.seen[key := now],
              if primed && key !in t.seen && Announceable(b, includeUnknown) then t.arrived + [b] else t.arrived)
  }

  function Track(seen: Seen, boards: seq<Board>, now: int, includeUnknown: bool, primed: bool, lastOk: int, grace: int): Tracked {
    var next := Prune(seen, now, grace);
    var keys := ScanKeys(boards, next.Keys);
    Note(next, boards, keys, now, EffectivelyPrimed(primed, lastOk, now, grace), includeUnknown, |boards|)
  }

  method TrackLoop(seen: Seen, boards: seq<Board>, now: int, includeUnknown: bool, primed: bool, lastOk: int, grace: int)
    returns (next: Seen, arrived: seq<Board>)
    ensures Tracked(next, arrived) == Track(seen, boards, now, includeUnknown, primed, lastOk, grace)
  {
    hide ScanKeys;
    var effective := primed;
    if lastOk > 0 && now - lastOk > grace {
      effective := false;
    }
    next := map[];
    var left := seen.Keys;
    while left != {}
      invariant left <= seen.Keys
      invariant next == map key | key in seen && key !in left && now - seen[key] <= grace :: seen[key]
      decreases left
    {
      var key :| key in left;
      left := left - {key};
      if now - seen[key] <= grace {
        next := next[key := seen[key]];
      }
    }
    assert next == Prune(seen, now, grace);
    var keys := ScanKeysLoop(boards, next.Keys);
    arrived := [];
    ghost var pruned := next;
    var i := 0;
    while i < |boards|
      invariant i <= |boards|
      invariant Tracked(next, arrived) == Note(pruned, boards, keys, now, effective, includeUnknown, i)
    {
      var known := keys[i] in next;
      next := next[keys[i] := now];
      if effective && !known && PortPattern(boards[i].port) && (includeUnknown || !boards[i].unknown) {
        arrived := arrived + [boards[i]];
      }
      i := i + 1;
    }
  }

  /** The panel's side of it. */
  class Panel {
    const includeUnknown: bool
    const grace: int
    var seen: Seen
    var primed: bool
    var lastOk: int

    constructor (includeUnknown: bool, intervalMs: int)
      ensures this.includeUnknown == includeUnknown && grace == ArrivalGrace(intervalMs)
      ensures Now() == START
    {
      this.includeUnknown, this.grace := includeUnknown, ArrivalGrace(intervalMs);
      seen, primed, lastOk := map[], false, 0;
    }

    function Now(): State
      reads this
    {
      State(seen, primed, lastOk)
    }

    method TrackArrivals(scan: Scan) returns (arrived: seq<Board>)
      modifies this
      ensures Now() == Step(old(Now()), scan, includeUnknown, grace)
      ensures arrived == Track(old(seen), scan.boards, scan.now, includeUnknown, old(primed), old(lastOk), grace).arrived
    {
      seen, arrived := TrackLoop(seen, scan.boards, scan.now, includeUnknown, primed, lastOk, grace);
      primed, lastOk := true, scan.now;
    }
  }

  // ------------------------------------------------------------------ runs

  datatype Scan = Scan(boards: seq<Board>, now: int)
  datatype State = State(seen: Seen, primed: bool, lastOk: int)

  const START := State(map[], false, 0)

  function Step(s: State, scan: Scan, includeUnknown: bool, grace: int): State {
    State(Track(s.seen, scan.boards, scan.now, includeUnknown, s.primed, s.lastOk, grace).seen, true, scan.now)
  }

  function Run(scans: seq<Scan>, k: nat, includeUnknown: bool, grace: int): State
    requires k <= |scans|
  {
    if k == 0 then START else Step(Run(scans, k - 1, includeUnknown, grace), scans[k - 1], includeUnknown, grace)
  }

  function Arrived(scans: seq<Scan>, k: nat, includeUnknown: bool, grace: int): seq<Board>
    requires k < |scans|
  {
    var s := Run(scans, k, includeUnknown, grace);
    Track(s.seen, scans[k].boards, scans[k].now, includeUnknown, s.primed, s.lastOk, grace).arrived
  }

  function KeysAt(scans: seq<Scan>, k: nat, includeUnknown: bool, grace: int): (keys: seq<string>)
    requires k < |scans|
    ensures |keys| == |scans[k].boards|
  {
    ScanKeys(scans[k].boards, Prune(Run(scans, k, includeUnknown, grace).seen, scans[k].now, grace).Keys)
  }

  predicate Ticks(scans: seq<Scan>) {
    forall j, k :: 0 <= j < k < |scans| ==> scans[j].now <= scans[k].now
  }

  lemma {:induction false} NoteSees(seen: Seen, boards: seq<Board>, keys: seq<string>, now: int, primed: bool, includeUnknown: bool, n: nat)
    requires n <= |boards| == |keys|
    ensures var t := Note(seen, boards, keys, now, primed, includeUnknown, n);
            forall key :: key in t.seen <==> key in seen || key in keys[..n]
    ensures var t := Note(seen, boards, keys, now, primed, includeUnknown, n);
            forall key :: key in t.seen ==> t.seen[key] == if key in keys[..n] then now else seen[key]
  {
    if n > 0 {
      NoteSees(seen, boards, keys, now, primed, includeUnknown, n - 1);
      assert keys[..n] == keys[..n - 1] + [keys[n - 1]];
    }
  }

  /** A run as its maps (one more than its scans), keys and times. */
  datatype History = History(seen: seq<Seen>, keys: seq<seq<string>>, now: seq<int>)

  /** What one scan makes of the map at one key. */
  predicate SeesAt(before: Seen, after: Seen, keys: seq<string>, now: int, key: string, grace: int) {
    (key in after <==> key in keys || (key in before && now - before[key] <= grace))
    && (key in after ==> after[key] == if key in keys then now else before[key])
  }

  predicate Sees(h: History, k: nat, key: string, grace: int)
    requires k < |h.keys| == |h.now| == |h.seen| - 1
  {
    SeesAt(h.seen[k], h.seen[k + 1], h.keys[k], h.now[k], key, grace)
  }

  ghost predicate Coherent(h: History, grace: int) {
    |h.keys| == |h.now| == |h.seen| - 1 && h.seen[0] == map[] && grace >= 0
    && (forall j, k :: 0 <= j < k < |h.now| ==> h.now[j] <= h.now[k])
    && (forall k: nat, key :: k < |h.keys| ==> Sees(h, k, key, grace))
  }

  /** What the map remembers of a key, some scan saw. */
  lemma {:induction false} RememberedWasSeen(h: History, k: nat, key: string, grace: int) returns (j: nat)
    requires Coherent(h, grace) && k < |h.seen| && key in h.seen[k]
    ensures j < k && key in h.keys[j] && h.now[j] == h.seen[k][key]
  {
    assert Sees(h, k - 1, key, grace);
    if key in h.keys[k - 1] { j := k - 1; } else { j := RememberedWasSeen(h, k - 1, key, grace); }
  }

  /** What some recent scan saw, the map remembers, and from no earlier than then. */
  lemma {:induction false} RecentIsRemembered(h: History, k: nat, j: nat, key: string, grace: int)
    requires Coherent(h, grace) && j < k < |h.seen| && key in h.keys[j] && h.now[k - 1] - h.now[j] <= grace
    ensures key in h.seen[k] && h.seen[k][key] >= h.now[j]
    decreases k
  {
    assert Sees(h, k - 1, key, grace);
    if j < k - 1 { RecentIsRemembered(h, k - 1, j, key, grace); }
  }

  /** Scan j was at most the grace window before `now`, and saw this key. */
  predicate SawRecently(h: History, j: nat, key: string, now: int, grace: int)
    requires j < |h.keys| == |h.now|
  {
    now - h.now[j] <= grace && key in h.keys[j]
  }

  /** The pruned map holds exactly the keys of the scans within the window. */
  lemma {:induction false} MapIsWindow(h: History, k: nat, key: string, now: int, grace: int)
    requires Coherent(h, grace) && k < |h.seen| && (k > 0 ==> h.now[k - 1] <= now)
    ensures key in Prune(h.seen[k], now, grace) <==> exists j: nat :: j < k && SawRecently(h, j, key, now, grace)
  {
    if key in Prune(h.seen[k], now, grace) {
      var j := RememberedWasSeen(h, k, key, grace);
      assert SawRecently(h, j, key, now, grace);
    }
    if j: nat :| j < k && SawRecently(h, j, key, now, grace) {
      RecentIsRemembered(h, k, j, key, grace);
    }
  }

  function HistoryOf(scans: seq<Scan>, includeUnknown: bool, grace: int): History {
    History(seq(|scans| + 1, k requires 0 <= k <= |scans| => Run(scans, k, includeUnknown, grace).seen),
            seq(|scans|, k requires 0 <= k < |scans| => KeysAt(scans, k, includeUnknown, grace)),
            seq(|scans|, k requires 0 <= k < |scans| => scans[k].now))
  }

  lemma {:induction false} HistoryIsCoherent(scans: seq<Scan>, includeUnknown: bool, grace: int)
    requires Ticks(scans) && grace >= 0
    ensures Coherent(HistoryOf(scans, includeUnknown, grace), grace)
  {
    var h := HistoryOf(scans, includeUnknown, grace);
    forall k: nat, key | k < |h.keys| ensures Sees(h, k, key, grace) {
      ScanSees(scans, k, key, includeUnknown, grace);
    }
  }

  lemma {:induction false} ScanSees(scans: seq<Scan>, k: nat, key: string, includeUnknown: bool, grace: int)
    requires k < |scans|
    ensures Sees(HistoryOf(scans, includeUnknown, grace), k, key, grace)
  {
    var after := Run(scans, k + 1, includeUnknown, grace);
    StepSees(Run(scans, k, includeUnknown, grace), scans[k], after, KeysAt(scans, k, includeUnknown, grace), key, includeUnknown, grace);
  }

  lemma {:induction false} StepSees(s: State, scan: Scan, after: State, keys: seq<string>, key: string, includeUnknown: bool, grace: int)
    requires after == Step(s, scan, includeUnknown, grace)
    requires keys == ScanKeys(scan.boards, Prune(s.seen, scan.now, grace).Keys)
    ensures SeesAt(s.seen, after.seen, keys, scan.now, key, grace)
  {
    var pruned := Prune(s.seen, scan.now, grace);
    NoteSees(pruned, scan.boards, keys, scan.now, EffectivelyPrimed(s.primed, s.lastOk, scan.now, grace),
             includeUnknown, |scan.boards|);
    assert keys[..|scan.boards|] == keys;
    assert key in pruned <==> key in s.seen && scan.now - s.seen[key] <= grace;
    assert after.seen == Note(pruned, scan.boards, keys, scan.now, EffectivelyPrimed(s.primed, s.lastOk, scan.now, grace),
                              includeUnknown, |scan.boards|).seen;
  }

  // ------------------------------------------------------------------ what is announced

  /** The same as `Note` announces, told by what was known before the scan. */
  function Newcomers(seen: Seen, boards: seq<Board>, keys: seq<string>, primed: bool, includeUnknown: bool, n: nat): seq<Board>
    requires n <= |boards| == |keys|
  {
    if n == 0 then []
    else
      var before := Newcomers(seen, boards, keys, primed, includeUnknown, n - 1);
      if primed && keys[n - 1] !in seen && Announceable(boards[n - 1], includeUnknown) then before + [boards[n - 1]] else before
  }

  lemma {:induction false} NotYetNoted(seen: Seen, boards: seq<Board>, keys: seq<string>, now: int, primed: bool,
                                       includeUnknown: bool, n: nat, key: string)
    requires n <= |boards| == |keys| && forall i :: 0 <= i < n ==> keys[i] != key
    ensures key in Note(seen, boards, keys, now, primed, includeUnknown, n).seen <==> key in seen
  {
    if n > 0 { NotYetNoted(seen, boards, keys, now, primed, includeUnknown, n - 1, key); }
  }

  lemma {:induction false} NoteFindsNewcomers(seen: Seen, boards: seq<Board>, keys: seq<string>, now: int, primed: bool,
                                              includeUnknown: bool, n: nat)
    requires n <= |boards| == |keys| && Distinct(keys)
    ensures Note(seen, boards, keys, now, primed, includeUnknown, n).arrived == Newcomers(seen, boards, keys, primed, includeUnknown, n)
  {
    hide Announceable;
    if n > 0 {
      NoteFindsNewcomers(seen, boards, keys, now, primed, includeUnknown, n - 1);
      NotYetNoted(seen, boards, keys, now, primed, includeUnknown, n - 1, keys[n - 1]);
    }
  }

  lemma {:induction false} NewcomersAre(seen: Seen, boards: seq<Board>, keys: seq<string>, primed: bool, includeUnknown: bool, n: nat, b: Board)
    requires n <= |boards| == |keys|
    ensures b in Newcomers(seen, boards, keys, primed, includeUnknown, n)
            <==> exists i :: 0 <= i < n && boards[i] == b && primed && keys[i] !in seen && Announceable(b, includeUnknown)
  {
    hide Announceable;
    if n > 0 { NewcomersAre(seen, boards, keys, primed, includeUnknown, n - 1, b); }
  }

  predicate UniqueIds(boards: seq<Board>) {
    forall i, j :: 0 <= i < j < |boards| ==> BoardKey(boards[i]) != BoardKey(boards[j])
  }

  lemma {:induction false} UniqueIdsArePlain(boards: seq<Board>, known: set<string>)
    requires UniqueIds(boards)
    ensures forall i :: 0 <= i < |boards| ==> ScanKeys(boards, known)[i] == BoardKey(boards[i])
    ensures Distinct(ScanKeys(boards, known))
  {
    NamingShape(boards, known, |boards|);
    forall i: nat | i < |boards| ensures ScanKeys(boards, known)[i] == BoardKey(boards[i]) {
      assert Named(boards, Name(boards, known, |boards|), i);
      if Twin(boards, boards[i]) {
        var j := OtherTwin(boards, i);
      }
    }
  }

  predicate Present(boards: seq<Board>, key: string) {
    exists i :: 0 <= i < |boards| && BoardKey(boards[i]) == key
  }

  /** Not the first scan, nor the first after a gap longer than the window. */
  predicate Primed(scans: seq<Scan>, k: nat, grace: int)
    requires k < |scans|
  {
    k > 0 && !(scans[k - 1].now > 0 && scans[k].now - scans[k - 1].now > grace)
  }

  /** What scan k announces, by the maps and keys of the run. */
  lemma {:induction false} ArrivedIs(scans: seq<Scan>, k: nat, includeUnknown: bool, grace: int)
    requires k < |scans| && Distinct(HistoryOf(scans, includeUnknown, grace).keys[k])
    ensures var h := HistoryOf(scans, includeUnknown, grace);
            Arrived(scans, k, includeUnknown, grace)
            == Newcomers(Prune(h.seen[k], scans[k].now, grace), scans[k].boards, h.keys[k], Primed(scans, k, grace),
                         includeUnknown, |scans[k].boards|)
  {
    var (s, boards) := (Run(scans, k, includeUnknown, grace), scans[k].boards);
    var (known, keys) := (Prune(s.seen, scans[k].now, grace), KeysAt(scans, k, includeUnknown, grace));
    assert EffectivelyPrimed(s.primed, s.lastOk, scans[k].now, grace) == Primed(scans, k, grace);
    NoteFindsNewcomers(known, boards, keys, scans[k].now, Primed(scans, k, grace), includeUnknown, |boards|);
  }

  lemma {:induction false} AnnouncedByKey(scans: seq<Scan>, k: nat, i: nat, includeUnknown: bool, grace: int)
    requires Ticks(scans) && grace >= 0 && k < |scans| && i < |scans[k].boards|
    requires Distinct(HistoryOf(scans, includeUnknown, grace).keys[k])
    requires forall j :: 0 <= j < |scans[k].boards| && j != i ==> scans[k].boards[j] != scans[k].boards[i]
    ensures var h := HistoryOf(scans, includeUnknown, grace);
            scans[k].boards[i] in Arrived(scans, k, includeUnknown, grace)
            <==> Primed(scans, k, grace) && Announceable(scans[k].boards[i], includeUnknown)
                 && forall j: nat :: j < k ==> !SawRecently(h, j, h.keys[k][i], scans[k].now, grace)
  {
    var (h, boards) := (HistoryOf(scans, includeUnknown, grace), scans[k].boards);
    ArrivedIs(scans, k, includeUnknown, grace);
    HistoryIsCoherent(scans, includeUnknown, grace);
    NewcomersAre(Prune(h.seen[k], scans[k].now, grace), boards, h.keys[k], Primed(scans, k, grace), includeUnknown, |boards|, boards[i]);
    MapIsWindow(h, k, h.keys[k][i], scans[k].now, grace);
  }

  /** On clean ports a board is announced exactly when the scan is primed, its port and type pass, and
      no scan within the window used its key. */
  lemma {:induction false} AnnouncedIffKeyNew(scans: seq<Scan>, k: nat, i: nat, includeUnknown: bool, grace: int)
    requires Ticks(scans) && grace >= 0 && k < |scans| && i < |scans[k].boards|
    requires Clean(scans[k].boards)
    ensures var h := HistoryOf(scans, includeUnknown, grace);
            scans[k].boards[i] in Arrived(scans, k, includeUnknown, grace)
            <==> Primed(scans, k, grace) && Announceable(scans[k].boards[i], includeUnknown)
                 && forall j: nat :: j < k ==> !SawRecently(h, j, h.keys[k][i], scans[k].now, grace)
  {
    var boards := scans[k].boards;
    CleanPortsHaveDistinctKeys(boards, Prune(Run(scans, k, includeUnknown, grace).seen, scans[k].now, grace).Keys);
    forall j | 0 <= j < |boards| && j != i ensures boards[j] != boards[i] {
      EndsAppend("", "||" + boards[i].port);
    }
    AnnouncedByKey(scans, k, i, includeUnknown, grace);
  }

  /** In any run of scans whose boards have identities of their own, a board is announced exactly when
      the scan is primed, its port and type pass, and no scan within the window saw it. */
  lemma {:induction false} AnnouncedIffNew(scans: seq<Scan>, k: nat, i: nat, includeUnknown: bool, grace: int)
    requires Ticks(scans) && grace >= 0 && k < |scans| && i < |scans[k].boards|
    requires forall j :: 0 <= j <= k ==> UniqueIds(scans[j].boards)
    ensures scans[k].boards[i] in Arrived(scans, k, includeUnknown, grace)
            <==> Primed(scans, k, grace) && Announceable(scans[k].boards[i], includeUnknown)
                 && forall j: nat :: j < k && scans[k].now - scans[j].now <= grace ==>
                      !Present(scans[j].boards, BoardKey(scans[k].boards[i]))
  {
    var (h, boards) := (HistoryOf(scans, includeUnknown, grace), scans[k].boards);
    KeysArePlain(scans, k, includeUnknown, grace);
    AnnouncedByKey(scans, k, i, includeUnknown, grace);
    forall j: nat | j < k
      ensures SawRecently(h, j, BoardKey(boards[i]), scans[k].now, grace)
              <==> scans[k].now - scans[j].now <= grace && Present(scans[j].boards, BoardKey(boards[i]))
    {
      KeysArePlain(scans, j, includeUnknown, grace);
      KeyMeansPresent(scans[j].boards, h.keys[j], BoardKey(boards[i]));
    }
  }

  lemma {:induction false} KeysArePlain(scans: seq<Scan>, k: nat, includeUnknown: bool, grace: int)
    requires k < |scans| && UniqueIds(scans[k].boards)
    ensures var keys := HistoryOf(scans, includeUnknown, grace).keys[k];
            |keys| == |scans[k].boards| && Distinct(keys)
            && forall i :: 0 <= i < |keys| ==> keys[i] == BoardKey(scans[k].boards[i])
  {
    UniqueIdsArePlain(scans[k].boards, Prune(Run(scans, k, includeUnknown, grace).seen, scans[k].now, grace).Keys);
  }

  lemma {:induction false} KeyMeansPresent(boards: seq<Board>, keys: seq<string>, key: string)
    requires |keys| == |boards| && forall i :: 0 <= i < |keys| ==> keys[i] == BoardKey(boards[i])
    ensures key in keys <==> Present(boards, key)
  {
    if key in keys {
      var i :| 0 <= i < |keys| && keys[i] == key;
      assert BoardKey(boards[i]) == key;
    }
    if Present(boards, key) {
      var i :| 0 <= i < |boards| && BoardKey(boards[i]) == key;
      assert keys[i] == key;
    }
  }
}

/** Text operations on message heads: splitting into lines, joining, stripping, lowering and partitioning. */
module HeadText {
  import opened Text

  const CRLF := "\r\n"

  // ---------------------------------------------------------------- lines

  predicate CrlfAt(s: string, i: nat) {
    i + 1 < |s| && s[i] == '\r' && s[i + 1] == '\n'
  }

  predicate CrlfFree(s: string) {
    forall i :: 0 <= i < |s| - 1 ==> !(s[i] == '\r' && s[i + 1] == '\n')
  }

  ghost predicate AllFree(lines: seq<string>) {
    forall i :: 0 <= i < |lines| ==> CrlfFree(lines[i])
  }

  /** `find("\r\n")`, or the length when there is none. */
  function FirstCrlf(s: string): (i: nat)
    ensures i <= |s| && (i < |s| ==> CrlfAt(s, i))
  {
    if |s| < 2 then |s| else if CrlfAt(s, 0) then 0 else 1 + FirstCrlf(s[1..])
  }

  /** `s.split("\r\n")` */
  function Split(s: string): (lines: seq<string>)
    ensures lines != []
    decreases |s|
  {
    var i := FirstCrlf(s);
    if i == |s| then [s] else [s[..i]] + Split(s[i + 2..])
  }

  function Join(lines: seq<string>): string {
    if lines == [] then "" else if |lines| == 1 then lines[0] else lines[0] + CRLF + Join(lines[1..])
  }

  /** Where the head ends: the first empty line. */
  function FirstBlank(s: string): nat {
    if |s| < 4 then |s| else if s[..4] == CRLF + CRLF then 0 else 1 + FirstBlank(s[1..])
  }

  lemma {:induction false} CrlfAfter(line: string, rest: string)
    requires CrlfFree(line)
    ensures FirstCrlf(line + CRLF + rest) == |line|
    decreases |line|
  {
    var s := line + CRLF + rest;
    if line == "" {
      assert s[0] == '\r' && s[1] == '\n';
    } else {
      assert s[1..] == line[1..] + CRLF + rest;
      CrlfAfter(line[1..], rest);
      assert !CrlfAt(s, 0) by {
        assert |line| > 1 ==> s[1] == line[1];
        assert |line| == 1 ==> s[1] == '\r';
      }
    }
  }

  lemma {:induction false} NoCrlf(line: string)
    requires CrlfFree(line)
    ensures FirstCrlf(line) == |line|
  {
    if |line| >= 2 { NoCrlf(line[1..]); }
  }

  /** Splitting what was joined gives the lines back. */
  lemma {:induction false} SplitJoin(lines: seq<string>)
    requires lines != [] && AllFree(lines)
    ensures Split(Join(lines)) == lines
  {
    if |lines| == 1 {
      NoCrlf(lines[0]);
    } else {
      var s, rest := Join(lines), Join(lines[1..]);
      CrlfAfter(lines[0], rest);
      assert s[|lines[0]| + 2..] == rest && s[..|lines[0]|] == lines[0];
      SplitJoin(lines[1..]);
    }
  }

  /** No line of a head is empty, so its first blank line is the one that ends it. */
  lemma {:induction false} HeadEnds(lines: seq<string>, body: string)
    requires lines != [] && forall i :: 0 <= i < |lines| ==> CrlfFree(lines[i]) && lines[i] != ""
    ensures FirstBlank(Join(lines) + CRLF + CRLF + body) == |Join(lines)|
    decreases |lines|, if lines == [] then 0 else |lines[0]|
  {
    var s := Join(lines) + CRLF + CRLF + body;
    if |lines| == 1 {
      BlankAfter(lines[0], CRLF + body);
      assert s == lines[0] + CRLF + (CRLF + body);
    } else {
      var rest := Join(lines[1..]) + CRLF + CRLF + body;
      assert s == lines[0] + CRLF + rest;
      HeadEnds(lines[1..], body);
      StartsWithLine(lines[1..], body);
      BlankAfter(lines[0], rest);
      SkipCrlf(rest);
    }
  }

  lemma StartsWithLine(lines: seq<string>, body: string)
    requires lines != [] && CrlfFree(lines[0]) && lines[0] != ""
    ensures !CrlfAt(Join(lines) + CRLF + CRLF + body, 0)
  {
    var s := Join(lines) + CRLF + CRLF + body;
    assert s[0] == lines[0][0];
    if |lines[0]| > 1 {
      assert s[1] == lines[0][1];
    } else {
      assert s[1] == '\r';
    }
  }

  /** After one line the search continues at its line end. */
  lemma {:induction false} BlankAfter(line: string, rest: string)
    requires CrlfFree(line)
    ensures FirstBlank(line + CRLF + rest) == |line| + FirstBlank(CRLF + rest)
    decreases |line|
  {
    var s := line + CRLF + rest;
    if line == "" {
      assert s == CRLF + rest;
    } else if |s| < 4 {
      assert |line| == 1 && rest == "";
    } else {
      assert s[1..] == line[1..] + CRLF + rest;
      BlankAfter(line[1..], rest);
      assert s[..4] != CRLF + CRLF by {
        assert |line| > 1 ==> s[1] == line[1];
        assert |line| == 1 ==> s[1] == '\r';
        assert s[..4][0] == s[0] && s[..4][1] == s[1];
      }
    }
  }

  lemma SkipCrlf(rest: string)
    requires !CrlfAt(rest, 0) && |rest| >= 2
    ensures FirstBlank(CRLF + rest) == 2 + FirstBlank(rest)
  {
    var s := CRLF + rest;
    assert s[..4] != CRLF + CRLF by {
      assert s[..4][2] == rest[0] && s[..4][3] == rest[1];
    }
    var t := s[1..];
    assert t[0] == '\n' && t[1..] == rest;
    if |t| >= 4 {
      assert t[..4][0] == '\n';
    }
  }

  // ---------------------------------------------------------------- strip, lower, partition

  function StripLeft(s: string): string {
    if s != "" && IsSpace(s[0]) then StripLeft(s[1..]) else s
  }

  function StripRight(s: string): string {
    if s != "" && IsSpace(s[|s| - 1]) then StripRight(s[..|s| - 1]) else s
  }

  function Strip(s: string): string { StripRight(StripLeft(s)) }

  /** Nothing left to strip. */
  predicate Trimmed(s: string) {
    s == "" || (!IsSpace(s[0]) && !IsSpace(s[|s| - 1]))
  }

  predicate Within(part: string, whole: string) {
    exists i, j :: 0 <= i <= j <= |whole| && part == whole[i..j]
  }

  lemma {:induction false} StripLeftFacts(s: string)
    ensures StripLeft(s) == "" || !IsSpace(StripLeft(s)[0])
    ensures exists i :: 0 <= i <= |s| && StripLeft(s) == s[i..]
  {
    if s != "" && IsSpace(s[0]) {
      StripLeftFacts(s[1..]);
      var i :| 0 <= i <= |s[1..]| && StripLeft(s[1..]) == s[1..][i..];
      assert s[1..][i..] == s[i + 1..];
    } else {
      assert s == s[0..];
    }
  }

  lemma {:induction false} StripRightFacts(s: string)
    ensures StripRight(s) == "" || !IsSpace(StripRight(s)[|StripRight(s)| - 1])
    ensures exists j :: 0 <= j <= |s| && StripRight(s) == s[..j]
  {
    if s != "" && IsSpace(s[|s| - 1]) {
      StripRightFacts(s[..|s| - 1]);
      var j :| 0 <= j <= |s| - 1 && StripRight(s[..|s| - 1]) == s[..|s| - 1][..j];
      assert s[..|s| - 1][..j] == s[..j];
    } else {
      assert s == s[..|s|];
    }
  }

  lemma PartOfPart(s: string, i: nat, j: nat)
    requires i <= |s| && j <= |s[i..]|
    ensures Within(s[i..][..j], s)
  {
    assert s[i..][..j] == s[i..i + j];
  }

  lemma StripFacts(s: string)
    ensures Trimmed(Strip(s)) && Within(Strip(s), s)
  {
    StripLeftFacts(s);
    var left, r := StripLeft(s), Strip(s);
    StripRightFacts(left);
    var i :| 0 <= i <= |s| && left == s[i..];
    var j :| 0 <= j <= |left| && r == left[..j];
    PartOfPart(s, i, j);
    assert r != "" ==> r[0] == left[0];
  }

  lemma StripTrimmed(s: string)
    requires Trimmed(s)
    ensures Strip(s) == s && Strip(" " + s) == s
  {
    assert (" " + s)[1..] == s;
  }

  /** `str.lower()` on latin-1 text. */
  function LowerChar(c: char): char {
    if 'A' <= c <= 'Z' || ('\U{c0}' <= c <= '\U{de}' && c != '\U{d7}') then (c as int + 32) as char else c
  }

  function Lower(s: string): (r: string)
    ensures |r| == |s|
  {
    seq(|s|, i requires 0 <= i < |s| => LowerChar(s[i]))
  }

  /** Lowering changes neither blanks, colons nor line ends, and happens once. */
  lemma LowerCharFacts(c: char)
    ensures LowerChar(LowerChar(c)) == LowerChar(c) && (IsSpace(LowerChar(c)) <==> IsSpace(c))
    ensures LowerChar(c) == ':' <==> c == ':'
    ensures LowerChar(c) == '\r' <==> c == '\r'
    ensures LowerChar(c) == '\n' <==> c == '\n'
  {
  }

  const CAPITALS := "ABCDEFGHIJKLMNOPQRSTUVWXYZ"
  const SMALLS := "abcdefghijklmnopqrstuvwxyz"

  /** Every capital becomes its small letter, the accented ones of latin-1 included, and nothing else changes. */
  lemma CapitalsFall(c: char)
    ensures forall i :: 0 <= i < |CAPITALS| ==> LowerChar(CAPITALS[i]) == SMALLS[i]
    ensures LowerChar('\U{c0}') == '\U{e0}' && LowerChar('\U{de}') == '\U{fe}' && LowerChar('\U{d7}') == '\U{d7}'
    ensures LowerChar(c) != c ==> c in CAPITALS || ('\U{c0}' <= c <= '\U{de}' && c != '\U{d7}')
  {
    assert 'A' <= c <= 'Z' ==> CAPITALS[c as int - 65] == c;
  }

  function FirstColon(s: string): (i: nat)
    ensures i <= |s|
  {
    if s == "" then 0 else if s[0] == ':' then 0 else 1 + FirstColon(s[1..])
  }

  lemma {:induction false} ColonAfter(name: string, rest: string)
    requires ':' !in name
    ensures FirstColon(name + ":" + rest) == |name|
  {
    var s := name + ":" + rest;
    if name != "" {
      assert s[1..] == name[1..] + ":" + rest;
      ColonAfter(name[1..], rest);
    }
  }

  lemma {:induction false} NoColonBefore(s: string)
    ensures ':' !in s[..FirstColon(s)]
  {
    if s != "" && s[0] != ':' {
      NoColonBefore(s[1..]);
      assert s[..FirstColon(s)] == [s[0]] + s[1..][..FirstColon(s[1..])];
    }
  }

  lemma PartCrlfFree(part: string, whole: string)
    requires CrlfFree(whole) && Within(part, whole)
    ensures CrlfFree(part)
  {
    var i, j :| 0 <= i <= j <= |whole| && part == whole[i..j];
    forall k | 0 <= k < |part| - 1 ensures !(part[k] == '\r' && part[k + 1] == '\n') {
      assert part[k] == whole[i + k] && part[k + 1] == whole[i + k + 1];
    }
  }

  lemma {:induction false} SplitCrlfFree(s: string)
    ensures forall i :: 0 <= i < |Split(s)| ==> CrlfFree(Split(s)[i])
    decreases |s|
  {
    var i := FirstCrlf(s);
    PrefixCrlfFree(s);
    if i < |s| {
      SplitCrlfFree(s[i + 2..]);
    } else {
      assert s[..i] == s;
    }
  }

  lemma {:induction false} PrefixCrlfFree(s: string)
    ensures CrlfFree(s[..FirstCrlf(s)])
  {
    var i := FirstCrlf(s);
    if |s| >= 2 && !CrlfAt(s, 0) {
      PrefixCrlfFree(s[1..]);
      var tail := s[1..][..i - 1];
      assert s[..i] == [s[0]] + tail;
      forall k | 0 <= k < i - 1 ensures !(s[..i][k] == '\r' && s[..i][k + 1] == '\n') {
        if k > 0 { assert s[..i][k] == tail[k - 1] && s[..i][k + 1] == tail[k]; }
      }
    }
  }

  lemma {:induction false} JoinBlank(lines: seq<string>)
    requires lines != []
    ensures Join(lines) + CRLF + CRLF == Join(lines + ["", ""])
  {
    if |lines| == 1 {
      assert (lines + ["", ""])[1..] == ["", ""];
      assert Join(["", ""]) == "" + CRLF + Join([""]) by { assert ["", ""][1..] == [""]; }
      assert Join(lines + ["", ""]) == lines[0] + CRLF + Join(["", ""]);
    } else {
      JoinBlank(lines[1..]);
      assert (lines + ["", ""])[1..] == lines[1..] + ["", ""];
    }
  }

  lemma BlankFree(lines: seq<string>)
    requires AllFree(lines)
    ensures AllFree(lines + ["", ""])
  {
  }

  lemma SplitBlank(lines: seq<string>)
    requires lines != [] && AllFree(lines)
    ensures Split(Join(lines) + CRLF + CRLF) == lines + ["", ""]
  {
    BlankFree(lines);
    JoinBlank(lines);
    SplitJoin(lines + ["", ""]);
  }
}

/** JavaScript string operations on character sequences. */
module Text {

  /** The characters of the JavaScript class `\s`. */
  predicate IsSpace(c: char) {
    var u := c as int;
    || 0x09 <= u <= 0x0D || u == 0x20 || u == 0xA0 || u == 0x1680 || 0x2000 <= u <= 0x200A
    || u == 0x2028 || u == 0x2029 || u == 0x202F || u == 0x205F || u == 0x3000 || u == 0xFEFF
  }

  /** The white space and line terminators of ECMAScript, one by one. */
  const WHITE_SPACE: set<int> := {
    0x09, 0x0A, 0x0B, 0x0C, 0x0D, 0x20, 0xA0, 0x1680,
    0x2000, 0x2001, 0x2002, 0x2003, 0x2004, 0x2005, 0x2006, 0x2007, 0x2008, 0x2009, 0x200A,
    0x2028, 0x2029, 0x202F, 0x205F, 0x3000, 0xFEFF}

  lemma SpacesAre(c: char)
    ensures IsSpace(c) <==> c as int in WHITE_SPACE
  {
  }

  function TrimStart(s: string): string {
    if s != "" && IsSpace(s[0]) then TrimStart(s[1..]) else s
  }

  function TrimEnd(s: string): string {
    if s != "" && IsSpace(s[|s| - 1]) then TrimEnd(s[..|s| - 1]) else s
  }

  function Trim(s: string): string {
    TrimEnd(TrimStart(s))
  }

  /** Empty, or with a printing character at both ends. */
  predicate IsTrimmed(s: string) {
    s == "" || (!IsSpace(s[0]) && !IsSpace(s[|s| - 1]))
  }

  lemma {:induction false} TrimStartShape(s: string)
    ensures TrimStart(s) == "" || !IsSpace(TrimStart(s)[0])
    ensures forall c :: c in TrimStart(s) ==> c in s
  {
    if s != "" && IsSpace(s[0]) {
      TrimStartShape(s[1..]);
    }
  }

  lemma {:induction false} TrimEndShape(s: string)
    ensures TrimEnd(s) <= s
    ensures TrimEnd(s) == "" || !IsSpace(TrimEnd(s)[|TrimEnd(s)| - 1])
  {
    if s != "" && IsSpace(s[|s| - 1]) {
      TrimEndShape(s[..|s| - 1]);
    }
  }

  lemma TrimIsTrimmed(s: string)
    ensures IsTrimmed(Trim(s))
    ensures forall c :: c in Trim(s) ==> c in s
  {
    TrimStartShape(s);
    TrimEndShape(TrimStart(s));
  }

  lemma TrimmedStays(s: string)
    requires IsTrimmed(s)
    ensures Trim(s) == s
  {
  }

  /** Trimming twice is trimming once. */
  lemma TrimTwice(s: string)
    ensures Trim(Trim(s)) == Trim(s)
  {
    TrimIsTrimmed(s);
    TrimmedStays(Trim(s));
  }

  predicate Blank(s: string) {
    forall c :: c in s ==> IsSpace(c)
  }

  /** Nothing is left exactly when there was nothing but whitespace. */
  lemma {:induction false} TrimEmptyIff(s: string)
    ensures Trim(s) == "" <==> Blank(s)
  {
    if s != "" && IsSpace(s[0]) {
      TrimEmptyIff(s[1..]);
      assert s == [s[0]] + s[1..];
    } else if s != "" {
      assert s[0] in s;
      TrimEndKeepsFirst(s);
    }
  }

  lemma {:induction false} TrimEndKeepsFirst(s: string)
    requires s != "" && !IsSpace(s[0])
    ensures TrimEnd(s) != ""
  {
    if IsSpace(s[|s| - 1]) {
      TrimEndKeepsFirst(s[..|s| - 1]);
    }
  }

  /** `t` is `s` without some of the white space around it. */
  ghost predicate Surrounded(s: string, t: string) {
    exists before: string, after: string :: s == before + t + after && Blank(before) && Blank(after)
  }

  lemma {:induction false} TrimEndLeaves(s: string) returns (after: string)
    ensures s == TrimEnd(s) + after && Blank(after)
  {
    if s != "" && IsSpace(s[|s| - 1]) {
      var rest := TrimEndLeaves(s[..|s| - 1]);
      after := rest + [s[|s| - 1]];
      assert s == s[..|s| - 1] + [s[|s| - 1]];
    } else {
      after := "";
    }
  }

  lemma {:induction false} TrimStartLeaves(s: string) returns (before: string)
    ensures s == before + TrimStart(s) && Blank(before)
  {
    if s != "" && IsSpace(s[0]) {
      var rest := TrimStartLeaves(s[1..]);
      before := [s[0]] + rest;
      assert s == [s[0]] + s[1..];
    } else {
      before := "";
    }
  }

  /** Trimming takes white space from the ends and nothing else. */
  lemma TrimSurrounds(s: string)
    ensures Surrounded(s, Trim(s))
  {
    var before := TrimStartLeaves(s);
    var after := TrimEndLeaves(TrimStart(s));
    assert s == before + Trim(s) + after;
  }

  // ---------------------------------------------------------------- lines

  /** `s.split('\n')` */
  function SplitLines(s: string): (lines: seq<string>)
    ensures lines != []
  {
    if s == "" then [""]
    else
      var before, c := SplitLines(s[..|s| - 1]), s[|s| - 1];
      if c == '\n' then before + [""]
      else before[..|before| - 1] + [before[|before| - 1] + [c]]
  }

  /** `lines.join('\n')` */
  function JoinLines(lines: seq<string>): string {
    if lines == [] then ""
    else if |lines| == 1 then lines[0]
    else JoinLines(lines[..|lines| - 1]) + "\n" + lines[|lines| - 1]
  }

  predicate OneLine(s: string) {
    forall c :: c in s ==> c != '\n'
  }

  lemma {:induction false} SplitIsLines(s: string)
    ensures forall l :: l in SplitLines(s) ==> OneLine(l)
  {
    if s != "" {
      SplitIsLines(s[..|s| - 1]);
      var before := SplitLines(s[..|s| - 1]);
      assert before[|before| - 1] in before;
    }
  }

  lemma {:induction false} SplitOneLine(s: string)
    requires OneLine(s)
    ensures SplitLines(s) == [s]
  {
    if s != "" {
      var init := s[..|s| - 1];
      assert s == init + [s[|s| - 1]];
      forall c | c in init ensures c != '\n' {
        assert c in s;
      }
      SplitOneLine(init);
      assert s[|s| - 1] in s;
    }
  }

  lemma SplitSnoc(s: string, c: char)
    ensures SplitLines(s + [c]) ==
            var before := SplitLines(s);
            if c == '\n' then before + [""] else before[..|before| - 1] + [before[|before| - 1] + [c]]
  {
    assert (s + [c])[..|s|] == s;
  }

  lemma {:induction false} SplitAppendLine(a: string, l: string)
    requires OneLine(l)
    ensures SplitLines(a + "\n" + l) == SplitLines(a) + [l]
  {
    hide SplitLines;
    if l == "" {
      assert a + "\n" + l == a + ['\n'];
      SplitSnoc(a, '\n');
    } else {
      var n := |l| - 1;
      var init := l[..n];
      assert l == init + [l[n]] && l[n] in l;
      forall c | c in init ensures c != '\n' {
        assert c in l;
      }
      assert a + "\n" + l == a + "\n" + init + [l[n]];
      SplitAppendLine(a, init);
      SplitSnoc(a + "\n" + init, l[n]);
    }
  }

  /** Splitting undoes joining. */
  lemma {:induction false} SplitJoin(lines: seq<string>)
    requires lines != [] && forall l :: l in lines ==> OneLine(l)
    ensures SplitLines(JoinLines(lines)) == lines
  {
    hide SplitLines;
    hide OneLine;
    var n := |lines| - 1;
    var init, last := lines[..n], lines[n];
    assert lines == init + [last];
    if n == 0 {
      SplitOneLine(lines[0]);
    } else {
      SplitJoin(init);
      SplitAppendLine(JoinLines(init), last);
    }
  }
}

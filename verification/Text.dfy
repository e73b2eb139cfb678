/** The string operations that the dump files are written and parsed with, as Python defines them. */
module Text {

  datatype Option<+T> = None | Some(value: T)

  predicate IsSpace(c: char) {
    c in " \t\n\r" || c == 11 as char || c == 12 as char
  }

  predicate NoSpace(s: string) {
    forall i | 0 <= i < |s| :: !IsSpace(s[i])
  }

  predicate NoNewline(s: string) {
    forall i | 0 <= i < |s| :: s[i] != '\n'
  }

  /** A non-empty word. */
  predicate Token(s: string) {
    s != "" && NoSpace(s)
  }

  function StripLeft(s: string): string {
    if s != "" && IsSpace(s[0]) then StripLeft(s[1..]) else s
  }

  function StripRight(s: string): string {
    if s != "" && IsSpace(s[|s| - 1]) then StripRight(s[..|s| - 1]) else s
  }

  /** s.strip() */
  function Strip(s: string): string {
    StripRight(StripLeft(s))
  }

  /** The position of the first occurrence of sep in s, or |s|. */
  function Find(s: string, sep: string): (k: nat)
    ensures k <= |s|
  {
    if s == "" || sep <= s then 0 else 1 + Find(s[1..], sep)
  }

  /** s.split(sep) */
  function Split(s: string, sep: string): (parts: seq<string>)
    requires sep != ""
    ensures |parts| > 0
    decreases |s|
  {
    var k := Find(s, sep);
    if k + |sep| <= |s| then [s[..k]] + Split(s[k + |sep|..], sep) else [s]
  }

  /** The lines of a text file, without their line ends. */
  function Lines(text: string): (lines: seq<string>)
    decreases |text|
  {
    if text == "" then []
    else
      var k := Find(text, "\n");
      [text[..k]] + if k < |text| then Lines(text[k + 1..]) else []
  }

  /** A file written line by line. */
  function Written(lines: seq<string>): string {
    if lines == [] then "" else lines[0] + "\n" + Written(lines[1..])
  }

  lemma {:induction false} FindAt(a: string, sep: char, b: string)
    requires forall i | 0 <= i < |a| :: a[i] != sep
    ensures Find(a + [sep] + b, [sep]) == |a|
  {
    var s := a + [sep] + b;
    if a == "" {
      assert [sep] <= s;
    } else {
      assert s[0] == a[0];
      assert s[1..] == a[1..] + [sep] + b;
      FindAt(a[1..], sep, b);
    }
  }

  lemma {:induction false} FindNone(a: string, sep: char)
    requires forall i | 0 <= i < |a| :: a[i] != sep
    ensures Find(a, [sep]) == |a|
  {
    if a != "" {
      assert [sep] <= a <==> a[0] == sep;
      FindNone(a[1..], sep);
    }
  }

  lemma SplitAt(a: string, b: string)
    requires NoSpace(a)
    ensures Split(a + " " + b, " ") == [a] + Split(b, " ")
  {
    FindAt(a, ' ', b);
    var s := a + " " + b;
    assert s[..|a|] == a && s[|a| + 1..] == b;
  }

  lemma SplitWord(a: string)
    requires NoSpace(a)
    ensures Split(a, " ") == [a]
  {
    FindNone(a, ' ');
  }

  /** Reading back a written file gives its lines. */
  lemma {:induction false} LinesOfWritten(lines: seq<string>)
    requires forall i | 0 <= i < |lines| :: NoNewline(lines[i])
    ensures Lines(Written(lines)) == lines
  {
    if lines != [] {
      var rest := Written(lines[1..]);
      FindAt(lines[0], '\n', rest);
      var text := lines[0] + "\n" + rest;
      assert text[..|lines[0]|] == lines[0] && text[|lines[0]| + 1..] == rest;
      LinesOfWritten(lines[1..]);
    }
  }

  /** Strip leaves a text alone whose ends are not white space. */
  lemma StripSolid(s: string)
    requires s != "" && !IsSpace(s[0]) && !IsSpace(s[|s| - 1])
    ensures Strip(s) == s
  {
  }

  predicate AllSpace(s: string) {
    forall i | 0 <= i < |s| :: IsSpace(s[i])
  }

  lemma {:induction false} StripLeftRemoves(x: string, s: string)
    requires AllSpace(x) && (s == "" || !IsSpace(s[0]))
    ensures StripLeft(x + s) == s
  {
    if x == "" {
      assert x + s == s;
    } else {
      StripLeftRemoves(x[1..], s);
      assert (x + s)[1..] == x[1..] + s;
    }
  }

  lemma {:induction false} StripRightRemoves(s: string, y: string)
    requires AllSpace(y) && (s == "" || !IsSpace(s[|s| - 1]))
    ensures StripRight(s + y) == s
  {
    if y == "" {
      assert s + y == s;
    } else {
      StripRightRemoves(s, y[..|y| - 1]);
      assert (s + y)[..|s + y| - 1] == s + y[..|y| - 1];
    }
  }

  /** Strip removes all white space around a text, and nothing else. */
  lemma StripRemoves(x: string, s: string, y: string)
    requires AllSpace(x) && AllSpace(y) && (s == "" || (!IsSpace(s[0]) && !IsSpace(s[|s| - 1])))
    ensures Strip(x + s + y) == s
  {
    if s == "" {
      StripLeftRemoves(x + y, "");
      assert x + s + y == x + y + "";
    } else {
      StripLeftRemoves(x, s + y);
      assert x + s + y == x + (s + y);
      StripRightRemoves(s, y);
    }
  }

  lemma {:induction false} StripLeftEmpty(s: string)
    ensures StripLeft(s) == "" <==> AllSpace(s)
    ensures StripLeft(s) != "" ==> !IsSpace(StripLeft(s)[0])
  {
    if s != "" && IsSpace(s[0]) {
      StripLeftEmpty(s[1..]);
      assert AllSpace(s) <==> AllSpace(s[1..]) by {
        if AllSpace(s[1..]) {
          assert forall i | 0 < i < |s| :: s[i] == s[1..][i - 1];
        }
      }
    }
  }

  lemma {:induction false} StripRightKeepsFirst(s: string)
    requires s != "" && !IsSpace(s[0])
    ensures StripRight(s) != ""
  {
    if IsSpace(s[|s| - 1]) { StripRightKeepsFirst(s[..|s| - 1]); }
  }

  /** Nothing is left exactly of white space. */
  lemma StripEmpty(s: string)
    ensures Strip(s) == "" <==> AllSpace(s)
  {
    StripLeftEmpty(s);
    if StripLeft(s) != "" { StripRightKeepsFirst(StripLeft(s)); }
  }
}

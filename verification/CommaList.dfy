/**
 The comma-separated list field of `axbi/forms.py`.
 */
module CommaList {

  /** The characters Python's `str.strip` removes. */
  predicate IsSpace(c: char) {
    var n := c as int;
    9 <= n <= 13 || 28 <= n <= 32 || n == 133 || n == 160 || n == 5760 || 8192 <= n <= 8202 ||
    n == 8232 || n == 8233 || n == 8239 || n == 8287 || n == 12288
  }

  /** Tabs and line ends, the separators of ASCII, the blank, and the spaces of Unicode. */
  lemma SpacesAre(c: char)
    ensures IsSpace(c) <==>
            c in "\t\n\U{0B}\U{0C}\r\U{1C}\U{1D}\U{1E}\U{1F} \U{85}\U{A0}\U{1680}" +
                 "\U{2000}\U{2001}\U{2002}\U{2003}\U{2004}\U{2005}\U{2006}\U{2007}\U{2008}\U{2009}\U{200A}" +
                 "\U{2028}\U{2029}\U{202F}\U{205F}\U{3000}"
  {
  }

  function StripLeft(s: string): string { if s != "" && IsSpace(s[0]) then StripLeft(s[1..]) else s }

  function StripRight(s: string): string {
    if s != "" && IsSpace(s[|s| - 1]) then StripRight(s[..|s| - 1]) else s
  }

  function Strip(s: string): string { StripRight(StripLeft(s)) }

  /** `s.split(",")`. */
  function Split(s: string): (parts: seq<string>)
    ensures parts != []
  {
    if s == "" then [""]
    else
      var rest := Split(s[1..]);
      if s[0] == ',' then [""] + rest else [[s[0]] + rest[0]] + rest[1..]
  }

  /** The parts with a comma between any two. */
  function Glue(parts: seq<string>): string {
    if parts == [] then "" else if |parts| == 1 then parts[0] else parts[0] + "," + Glue(parts[1..])
  }

  function StripAll(l: seq<string>): seq<string> { seq(|l|, i requires 0 <= i < |l| => Strip(l[i])) }

  /** `", ".join(l)`. */
  function Join(l: seq<string>): string {
    if l == [] then "" else if |l| == 1 then l[0] else l[0] + ", " + Join(l[1..])
  }

  function Parse(s: string): seq<string> { StripAll(Split(s)) }

  function Print(l: seq<string>): string { if l != [] then Join(l) else "" }

  /** Neither end is a space. */
  predicate IsStripped(s: string) { s != "" ==> !IsSpace(s[0]) && !IsSpace(s[|s| - 1]) }

  ghost predicate Storable(l: seq<string>) { l != [] && forall s <- l :: IsStripped(s) && ',' !in s }

  lemma {:induction false} StripLeftKeeps(s: string)
    ensures StripLeft(s) != "" ==> !IsSpace(StripLeft(s)[0]) && StripLeft(s)[|StripLeft(s)| - 1] == s[|s| - 1]
    ensures forall c <- StripLeft(s) :: c in s
  {
    if s != "" && IsSpace(s[0]) { StripLeftKeeps(s[1..]); }
  }

  lemma {:induction false} StripRightKeeps(s: string)
    ensures StripRight(s) != "" ==> !IsSpace(StripRight(s)[|StripRight(s)| - 1]) && StripRight(s)[0] == s[0]
    ensures forall c <- StripRight(s) :: c in s
  {
    if s != "" && IsSpace(s[|s| - 1]) { StripRightKeeps(s[..|s| - 1]); }
  }

  /** Stripping strips, adds no character, and leaves stripped strings alone. */
  lemma StripStrips(s: string)
    ensures IsStripped(Strip(s)) && (forall c <- Strip(s) :: c in s)
    ensures Strip(s) == s <==> IsStripped(s)
  {
    StripLeftKeeps(s);
    StripRightKeeps(StripLeft(s));
  }

  lemma StripSpaceBefore(s: string)
    ensures Strip(" " + s) == Strip(s)
  {
  }

  lemma GlueBehindEmpty(parts: seq<string>)
    requires parts != []
    ensures Glue([""] + parts) == "," + Glue(parts)
  {
    assert ([""] + parts)[1..] == parts;
    assert "" + "," + Glue(parts) == "," + Glue(parts);
  }

  lemma GlueAfterCharacter(c: char, first: string, others: seq<string>)
    ensures Glue([[c] + first] + others) == [c] + Glue([first] + others)
  {
    assert ([[c] + first] + others)[1..] == others == ([first] + others)[1..];
    var tail := "," + Glue(others);
    assert ([c] + first) + tail == [c] + (first + tail);
    assert ([c] + first) + tail == ([c] + first) + "," + Glue(others);
    assert first + tail == first + "," + Glue(others);
  }

  lemma {:induction false} SplitGlues(s: string)
    ensures Glue(Split(s)) == s
  {
    if s != "" {
      var rest := Split(s[1..]);
      SplitGlues(s[1..]);
      assert s == [s[0]] + s[1..];
      if s[0] == ',' {
        GlueBehindEmpty(rest);
      } else {
        GlueAfterCharacter(s[0], rest[0], rest[1..]);
        assert rest == [rest[0]] + rest[1..];
      }
    }
  }

  /** The parts hold no comma and, joined by commas, give the string back. */
  lemma {:induction false} SplitHasNoCommas(s: string)
    ensures forall part <- Split(s) :: ',' !in part
    ensures Glue(Split(s)) == s
  {
    SplitGlues(s);
    if s != "" {
      var rest := Split(s[1..]);
      SplitHasNoCommas(s[1..]);
      assert rest[0] in rest;
      forall part <- Split(s) ensures ',' !in part {
        if s[0] != ',' && part == Split(s)[0] { assert ',' !in rest[0]; }
      }
    }
  }

  lemma {:induction false} SplitPlain(s: string)
    requires ',' !in s
    ensures Split(s) == [s]
  {
    if s != "" {
      SplitPlain(s[1..]);
      assert [s[0]] + s[1..] == s;
    }
  }

  lemma {:induction false} SplitAtComma(a: string, b: string)
    requires ',' !in a
    ensures Split(a + "," + b) == [a] + Split(b)
  {
    var s := a + "," + b;
    if a == "" {
      assert s[1..] == b;
    } else {
      SplitAtComma(a[1..], b);
      assert s[1..] == a[1..] + "," + b;
      assert [a[0]] + a[1..] == a;
    }
  }

  lemma ParseAtComma(a: string, b: string)
    requires ',' !in a
    ensures Parse(a + "," + b) == [Strip(a)] + Parse(b)
  {
    SplitAtComma(a, b);
  }

  lemma ParseSkipsBlank(s: string)
    ensures Parse(" " + s) == Parse(s)
  {
    assert (" " + s)[1..] == s;
    var parts := Split(s);
    StripSpaceBefore(parts[0]);
    assert [' '] + parts[0] == " " + parts[0];
  }

  /** Printing and parsing again is the identity on stripped, comma-free strings. */
  lemma {:induction false} ParseOfJoin(l: seq<string>)
    requires Storable(l)
    ensures Parse(Join(l)) == l
  {
    StripStrips(l[0]);
    if |l| == 1 {
      SplitPlain(l[0]);
    } else {
      var rest := l[1..];
      ParseOfJoin(rest);
      assert l[0] + ", " + Join(rest) == l[0] + "," + (" " + Join(rest));
      ParseAtComma(l[0], " " + Join(rest));
      ParseSkipsBlank(Join(rest));
      assert l == [l[0]] + rest;
    }
  }

  /** What parsing returns can always be stored. */
  lemma ParsedIsStorable(s: string)
    ensures Storable(Parse(s))
  {
    SplitHasNoCommas(s);
    forall x <- Parse(s) ensures IsStripped(x) && ',' !in x {
      var i :| 0 <= i < |Split(s)| && Strip(Split(s)[i]) == x;
      StripStrips(Split(s)[i]);
      assert Split(s)[i] in Split(s);
    }
  }

  /** A list survives printing and parsing exactly when it is not empty and its strings are stripped and comma-free. */
  lemma RoundTripIff(l: seq<string>)
    ensures Parse(Print(l)) == l <==> Storable(l)
  {
    if Storable(l) {
      ParseOfJoin(l);
    }
    ParsedIsStorable(Print(l));
  }

  /** For every input, parsing, printing and parsing again gives the first parse. */
  lemma ParsePrintParse(s: string)
    ensures Parse(Print(Parse(s))) == Parse(s)
  {
    ParsedIsStorable(s);
    RoundTripIff(Parse(s));
  }

  /** The empty list comes back as one empty string. */
  lemma EmptyListComesBackAsEmptyString()
    ensures Parse(Print([])) == [""]
  {
  }

  lemma {:induction false} LeftSpaces(s: string) returns (left: string)
    ensures s == left + StripLeft(s) && forall c <- left :: IsSpace(c)
  {
    left := "";
    if s != "" && IsSpace(s[0]) {
      left := LeftSpaces(s[1..]);
      left := [s[0]] + left;
    }
  }

  lemma {:induction false} RightSpaces(s: string) returns (right: string)
    ensures s == StripRight(s) + right && forall c <- right :: IsSpace(c)
  {
    right := "";
    if s != "" && IsSpace(s[|s| - 1]) {
      right := RightSpaces(s[..|s| - 1]);
      right := right + [s[|s| - 1]];
    }
  }

  /** Stripping takes spaces off both ends and nothing else. */
  lemma StripKeepsMiddle(s: string) returns (left: string, right: string)
    ensures s == left + Strip(s) + right
    ensures (forall c <- left :: IsSpace(c)) && (forall c <- right :: IsSpace(c))
  {
    left := LeftSpaces(s);
    right := RightSpaces(StripLeft(s));
    assert StripLeft(s) == Strip(s) + right;
  }

  lemma JoinOfOne(s: string)
    ensures Join([s]) == s
  {
  }

  /** Two lists printed together are separated by a comma and a blank. */
  lemma {:induction false} JoinSeparates(a: seq<string>, b: seq<string>)
    requires a != [] && b != []
    ensures Join(a + b) == Join(a) + ", " + Join(b)
  {
    if |a| == 1 {
      assert (a + b)[1..] == b;
    } else {
      assert (a + b)[1..] == a[1..] + b;
      JoinSeparates(a[1..], b);
      var x, y, z := a[0] + ", ", Join(a[1..]), ", " + Join(b);
      assert x + (y + z) == (x + y) + z;
      assert y + z == Join(a[1..]) + ", " + Join(b);
    }
  }

  lemma TabsAreStripped()
    ensures Strip(" a\t") == "a"
  {
    assert " a\t"[1..] == "a\t" && "a\t"[..1] == "a";
  }

  lemma LineEndsAreStripped()
    ensures Strip("\r\nb c") == "b c"
  {
    assert "\r\nb c"[1..] == "\nb c" && "\nb c"[1..] == "b c";
  }

  lemma TwoItems(a: string, b: string)
    requires ',' !in a && ',' !in b
    ensures Parse(a + "," + b) == [Strip(a), Strip(b)]
  {
    SplitAtComma(a, b);
    SplitPlain(b);
  }

  /** Blanks, tabs and line ends around the items go, inside they stay. */
  lemma ParsedExample()
    ensures Parse(" a\t" + "," + "\r\nb c") == ["a", "b c"]
  {
    TwoItems(" a\t", "\r\nb c");
    TabsAreStripped();
    LineEndsAreStripped();
  }

  class CommaSeparatedListField {
    var data: seq<string>

    constructor ()
      ensures data == []
    {
      data := [];
    }

    /** `_value`. */
    method Value() returns (s: string)
      ensures s == Print(data)
      ensures Parse(s) == data <==> Storable(data)
    {
      s := "";
      if data != [] {
        s := Join(data);
      }
      RoundTripIff(data);
    }

    /** `process_formdata`: only the first value counts, and no value clears the list. */
    method ProcessFormdata(values: seq<string>)
      modifies this
      ensures data == if values == [] then [] else Parse(values[0])
      ensures values != [] ==> Storable(data)
    {
      if values != [] {
        ParsedIsStorable(values[0]);
        data := StripAll(Split(values[0]));
      } else {
        data := [];
      }
    }
  }
}

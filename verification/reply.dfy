/** The article tab's reader for the fact-checking reply (app.py, lines
    852-872). The reply is asked for as five tagged lines; the reader strips
    the text, splits it into lines and lets each line that starts with a tag
    set that tag's field, so a later line overwrites an earlier one. Whatever
    is missing keeps its default: verdict "UNKNOWN", confidence 0, empty text
    for the rest. The confidence is read with Python's `int()` after every
    "%" is removed, and 0 stands in when that raises. */
module Reply {
  import opened Text

  const VerdictTag := "VERDICT:"
  const ConfidenceTag := "CONFIDENCE:"
  const ReasoningTag := "REASONING:"
  const RedFlagsTag := "RED_FLAGS:"
  const RecommendationTag := "RECOMMENDATION:"

  /** The five tags, in the order the `if`/`elif` chain tests them. */
  const Tags := [VerdictTag, ConfidenceTag, ReasoningTag, RedFlagsTag, RecommendationTag]

  datatype Analysis = Analysis(
    verdict: string, confidence: int, reasoning: string, redFlags: string, recommendation: string)

  /** The values the five fields hold before any line is read. */
  const Unparsed := Analysis("UNKNOWN", 0, "", "", "")

  /** `line.replace(tag, "").strip()` */
  function Payload(line: string, tag: string): string
    requires tag != []
  {
    Strip(RemoveAll(line, tag))
  }

  // ---------------------------------------------------------------- int()

  predicate IsDigit(c: char) {
    '0' <= c <= '9'
  }

  predicate AllDigits(s: string) {
    forall i :: 0 <= i < |s| ==> IsDigit(s[i])
  }

  /** The digit part of a Python integer literal: ASCII digits, where a
      single underscore may stand between two digits. */
  predicate DigitGroups(s: string) {
    |s| > 0 && IsDigit(s[0]) && IsDigit(s[|s| - 1]) &&
    (forall i :: 0 <= i < |s| ==> IsDigit(s[i]) || s[i] == '_') &&
    (forall i :: 0 <= i < |s| - 1 && s[i] == '_' ==> IsDigit(s[i + 1]))
  }

  /** The characters of `s` other than underscores, in order. */
  function DropUnderscores(s: string): (r: string)
    ensures |r| <= |s|
    ensures forall i :: 0 <= i < |r| ==> r[i] != '_' && r[i] in s
  {
    if s == [] then []
    else (if s[0] == '_' then [] else [s[0]]) + DropUnderscores(s[1..])
  }

  /** The number a string of decimal digits denotes. */
  function DecimalValue(d: string): nat
    requires AllDigits(d)
  {
    if d == [] then 0
    else 10 * DecimalValue(d[..|d| - 1]) + (d[|d| - 1] as int - '0' as int)
  }

  /** The value of unsigned digit groups, or `None` when the text is not
      digit groups. */
  function Unsigned(body: string): (r: Option<nat>)
    ensures r.Some? <==> DigitGroups(body)
  {
    if DigitGroups(body) then Some(DecimalValue(DropUnderscores(body))) else None
  }

  /** Python's `int(s)` on a string: surrounding whitespace is ignored, then
      an optional sign and digit groups; any other text raises, here `None`. */
  function ParseInt(s: string): (r: Option<int>)
    ensures r.Some? ==> Strip(s) != []
  {
    var t := Strip(s);
    if t != [] && t[0] == '-' then
      match Unsigned(t[1..])
      case Some(v) => Some(-(v as int))
      case None => None
    else if t != [] && t[0] == '+' then
      match Unsigned(t[1..])
      case Some(v) => Some(v as int)
      case None => None
    else
      match Unsigned(t)
      case Some(v) => Some(v as int)
      case None => None
  }

  function DigitChar(k: nat): (c: char)
    requires k < 10
    ensures IsDigit(c)
  {
    ('0' as int + k) as char
  }

  /** `str(n)` for a natural number: its decimal digits, most significant first. */
  function NatString(n: nat): (s: string)
    ensures s != [] && AllDigits(s)
  {
    if n < 10 then [DigitChar(n)] else NatString(n / 10) + [DigitChar(n % 10)]
  }

  /** `str(n)`: a minus sign before the digits of a negative number. */
  function IntString(n: int): (s: string)
    ensures s != []
  {
    if n < 0 then "-" + NatString(-n) else NatString(n)
  }

  lemma {:induction false} NatStringValue(n: nat)
    ensures DecimalValue(NatString(n)) == n
  {
    if n >= 10 {
      NatStringValue(n / 10);
      var s := NatString(n);
      assert s[..|s| - 1] == NatString(n / 10);
    }
  }

  lemma {:induction false} DropUnderscoresNone(s: string)
    requires AllDigits(s)
    ensures DropUnderscores(s) == s
  {
    if s != [] {
      DropUnderscoresNone(s[1..]);
      assert [s[0]] + s[1..] == s;
    }
  }

  /** Stripping a string that neither starts nor ends with white space
      changes nothing. */
  lemma StripClean(s: string)
    requires s != [] && !IsSpace(s[0]) && !IsSpace(s[|s| - 1])
    ensures Strip(s) == s
  {
  }

  /** `int(str(n)) == n`: every integer survives printing and reading back. */
  lemma ParseIntRoundTrip(n: int)
    ensures ParseInt(IntString(n)) == Some(n)
  {
    if n < 0 {
      ParseNegative(n);
    } else {
      ParseDigits(n);
    }
  }

  /** The digits of a natural number read back as that number. */
  lemma UnsignedRoundTrip(n: nat)
    ensures Unsigned(NatString(n)) == Some(n)
  {
    NatStringValue(n);
    DropUnderscoresNone(NatString(n));
  }

  lemma ParseDigits(n: nat)
    ensures ParseInt(IntString(n)) == Some(n)
  {
    var s := NatString(n);
    assert IntString(n) == s;
    StripClean(s);
    assert Strip(s) == s && !(s[0] == '-' || s[0] == '+');
    UnsignedRoundTrip(n);
    assert ParseInt(s) == Some(n);
  }

  lemma ParseNegative(n: int)
    requires n < 0
    ensures ParseInt(IntString(n)) == Some(n)
  {
    var digits := NatString(-n);
    var s := "-" + digits;
    assert IntString(n) == s;
    assert s[0] == '-' && s[1..] == digits;
    assert !IsSpace(s[|s| - 1]);
    StripClean(s);
    assert Strip(s) == s;
    UnsignedRoundTrip(-n);
    assert Unsigned(s[1..]) == Some(-n);
    assert ParseInt(s) == Some(n);
  }

  /** A stripped text holding a character that is neither a digit, an
      underscore nor a sign is not an integer (`int("85.5")` raises). */
  lemma ParseIntRejects(s: string, i: nat)
    requires i < |Strip(s)|
    requires var c := Strip(s)[i]; !IsDigit(c) && c != '_' && c != '-' && c != '+'
    ensures ParseInt(s) == None
  {
    var t := Strip(s);
    if t[0] == '-' || t[0] == '+' {
      assert i > 0 && t[1..][i - 1] == t[i];
    }
  }

  // ------------------------------------------------------- the confidence

  /** The confidence a CONFIDENCE line sets: the payload with every "%"
      removed, read by `int()`; 0 when that raises. */
  function ConfidenceOf(line: string): int {
    match ParseInt(RemoveAll(Payload(line, ConfidenceTag), "%"))
    case Some(v) => v
    case None => 0
  }

  lemma {:induction false} RemoveAllAbsent(s: string, pat: string)
    requires pat != [] && !HasChar(s, pat[0])
    ensures RemoveAll(s, pat) == s
    decreases |s|
  {
    if s != [] {
      assert s[0] != pat[0] && !StartsWith(s, pat);
      RemoveAllAbsent(s[1..], pat);
      assert [s[0]] + s[1..] == s;
    }
  }

  lemma {:induction false} RemoveLastChar(s: string, c: char)
    requires !HasChar(s, c)
    ensures RemoveAll(s + [c], [c]) == s
    decreases |s|
  {
    if s == [] {
      assert StartsWith([c], [c]);
    } else {
      assert (s + [c])[0] == s[0] != c;
      assert (s + [c])[1..] == s[1..] + [c];
      RemoveLastChar(s[1..], c);
      assert [s[0]] + s[1..] == s;
    }
  }

  /** The line the reply is asked to contain, "CONFIDENCE: 85%", gives back
      the number it carries. */
  lemma ConfidenceRoundTrip(n: nat)
    ensures ConfidenceOf(ConfidenceTag + " " + NatString(n) + "%") == n
  {
    var digits := NatString(n);
    var rest := " " + digits + "%";
    assert ConfidenceTag + " " + digits + "%" == ConfidenceTag + rest;
    assert StartsWith(ConfidenceTag + rest, ConfidenceTag);
    assert (ConfidenceTag + rest)[|ConfidenceTag|..] == rest;
    assert !HasChar(rest, 'C');
    RemoveAllAbsent(rest, ConfidenceTag);
    assert RemoveAll(ConfidenceTag + rest, ConfidenceTag) == rest;
    assert rest[1..] == digits + "%";
    StripClean(digits + "%");
    assert Strip(rest) == digits + "%";
    assert !HasChar(digits, '%');
    RemoveLastChar(digits, '%');
    ParseIntRoundTrip(n);
  }

  // --------------------------------------------------------------- the loop

  /** One pass of the loop body: the first tag the line starts with decides
      which field the line sets; other lines change nothing. */
  function Step(a: Analysis, line: string): Analysis {
    if StartsWith(line, VerdictTag) then a.(verdict := Payload(line, VerdictTag))
    else if StartsWith(line, ConfidenceTag) then a.(confidence := ConfidenceOf(line))
    else if StartsWith(line, ReasoningTag) then a.(reasoning := Payload(line, ReasoningTag))
    else if StartsWith(line, RedFlagsTag) then a.(redFlags := Payload(line, RedFlagsTag))
    else if StartsWith(line, RecommendationTag) then a.(recommendation := Payload(line, RecommendationTag))
    else a
  }

  /** The fields after the loop has read `lines` in order. */
  function Replay(lines: seq<string>): Analysis {
    if lines == [] then Unparsed else Step(Replay(lines[..|lines| - 1]), lines[|lines| - 1])
  }

  /** `text.strip().split('\n')` */
  function Lines(text: string): seq<string> {
    Split(Strip(text), '\n')
  }

  /** The parse as the article tab runs it: five variables with their
      defaults, updated line by line. */
  method ParseReply(text: string) returns (a: Analysis)
    ensures a == Replay(Lines(text))
  {
    var lines := Lines(text);
    var verdict, confidence, reasoning, redFlags, recommendation := "UNKNOWN", 0, "", "", "";
    for i := 0 to |lines|
      invariant Analysis(verdict, confidence, reasoning, redFlags, recommendation) == Replay(lines[..i])
    {
      var line := lines[i];
      assert lines[..i + 1][..i] == lines[..i];
      ghost var before := Analysis(verdict, confidence, reasoning, redFlags, recommendation);
      if StartsWith(line, VerdictTag) {
        verdict := Payload(line, VerdictTag);
      } else if StartsWith(line, ConfidenceTag) {
        confidence := ConfidenceOf(line);
      } else if StartsWith(line, ReasoningTag) {
        reasoning := Payload(line, ReasoningTag);
      } else if StartsWith(line, RedFlagsTag) {
        redFlags := Payload(line, RedFlagsTag);
      } else if StartsWith(line, RecommendationTag) {
        recommendation := Payload(line, RecommendationTag);
      }
      assert Analysis(verdict, confidence, reasoning, redFlags, recommendation) == Step(before, line);
    }
    assert lines[..|lines|] == lines;
    a := Analysis(verdict, confidence, reasoning, redFlags, recommendation);
  }

  // ------------------------------------------------------------ properties

  /** The last line that starts with `tag`, if any. */
  function LastTagged(lines: seq<string>, tag: string): (r: Option<string>)
    ensures r.None? <==> forall k :: 0 <= k < |lines| ==> !StartsWith(lines[k], tag)
    ensures r.Some? ==> StartsWith(r.value, tag) && r.value in lines
  {
    if lines == [] then None
    else if StartsWith(lines[|lines| - 1], tag) then Some(lines[|lines| - 1])
    else
      assert forall k :: 0 <= k < |lines| - 1 ==> lines[..|lines| - 1][k] == lines[k];
      LastTagged(lines[..|lines| - 1], tag)
  }

  /** No line starts with two of the tags, so the order of the `elif` chain
      never matters. */
  lemma TagsExclusive(line: string, i: nat, j: nat)
    requires i < j < |Tags|
    ensures !(StartsWith(line, Tags[i]) && StartsWith(line, Tags[j]))
  {
    TagChars(line, i);
    TagChars(line, j);
  }

  /** A line that starts with a tag shares its first and third characters,
      which tell the five tags apart. */
  lemma TagChars(line: string, k: nat)
    requires k < |Tags|
    ensures StartsWith(line, Tags[k]) ==> line[0] == Tags[k][0] && line[2] == Tags[k][2]
  {
    if StartsWith(line, Tags[k]) {
      assert line[..|Tags[k]|][0] == line[0] && line[..|Tags[k]|][2] == line[2];
    }
  }

  /** Each field comes from the last line carrying its tag, whatever lines
      with other tags come after it, and keeps its default when no line
      carries its tag. */
  /** Because the tags exclude each other, a line sets its own tag's field
      and leaves the other four alone, wherever its tag sits in the chain. */
  lemma StepFields(a: Analysis, line: string)
    ensures Step(a, line).verdict == if StartsWith(line, VerdictTag) then Payload(line, VerdictTag) else a.verdict
    ensures Step(a, line).confidence == if StartsWith(line, ConfidenceTag) then ConfidenceOf(line) else a.confidence
    ensures Step(a, line).reasoning == if StartsWith(line, ReasoningTag) then Payload(line, ReasoningTag) else a.reasoning
    ensures Step(a, line).redFlags == if StartsWith(line, RedFlagsTag) then Payload(line, RedFlagsTag) else a.redFlags
    ensures Step(a, line).recommendation == if StartsWith(line, RecommendationTag) then Payload(line, RecommendationTag) else a.recommendation
  {
    TagsExclusive(line, 0, 1);
    TagsExclusive(line, 0, 2);
    TagsExclusive(line, 0, 3);
    TagsExclusive(line, 0, 4);
    TagsExclusive(line, 1, 2);
    TagsExclusive(line, 1, 3);
    TagsExclusive(line, 1, 4);
    TagsExclusive(line, 2, 3);
    TagsExclusive(line, 2, 4);
    TagsExclusive(line, 3, 4);
  }

  lemma {:induction false} VerdictFromLastLine(lines: seq<string>)
    ensures Replay(lines).verdict ==
      (match LastTagged(lines, VerdictTag) case Some(l) => Payload(l, VerdictTag) case None => "UNKNOWN")
  {
    if lines != [] {
      var init, line := lines[..|lines| - 1], lines[|lines| - 1];
      VerdictFromLastLine(init);
      StepFields(Replay(init), line);
    }
  }

  lemma {:induction false} ConfidenceFromLastLine(lines: seq<string>)
    ensures Replay(lines).confidence ==
      (match LastTagged(lines, ConfidenceTag) case Some(l) => ConfidenceOf(l) case None => 0)
  {
    if lines != [] {
      var init, line := lines[..|lines| - 1], lines[|lines| - 1];
      ConfidenceFromLastLine(init);
      StepFields(Replay(init), line);
    }
  }

  lemma {:induction false} ReasoningFromLastLine(lines: seq<string>)
    ensures Replay(lines).reasoning ==
      (match LastTagged(lines, ReasoningTag) case Some(l) => Payload(l, ReasoningTag) case None => "")
  {
    if lines != [] {
      var init, line := lines[..|lines| - 1], lines[|lines| - 1];
      ReasoningFromLastLine(init);
      StepFields(Replay(init), line);
    }
  }

  lemma {:induction false} RedFlagsFromLastLine(lines: seq<string>)
    ensures Replay(lines).redFlags ==
      (match LastTagged(lines, RedFlagsTag) case Some(l) => Payload(l, RedFlagsTag) case None => "")
  {
    if lines != [] {
      var init, line := lines[..|lines| - 1], lines[|lines| - 1];
      RedFlagsFromLastLine(init);
      StepFields(Replay(init), line);
    }
  }

  lemma {:induction false} RecommendationFromLastLine(lines: seq<string>)
    ensures Replay(lines).recommendation ==
      (match LastTagged(lines, RecommendationTag) case Some(l) => Payload(l, RecommendationTag) case None => "")
  {
    if lines != [] {
      var init, line := lines[..|lines| - 1], lines[|lines| - 1];
      RecommendationFromLastLine(init);
      StepFields(Replay(init), line);
    }
  }

  /** A reply without a VERDICT line leaves the verdict "UNKNOWN", and one
      without a CONFIDENCE line leaves the confidence 0. */
  lemma Defaults(lines: seq<string>)
    ensures (forall k :: 0 <= k < |lines| ==> !StartsWith(lines[k], VerdictTag)) ==>
      Replay(lines).verdict == "UNKNOWN"
    ensures (forall k :: 0 <= k < |lines| ==> !StartsWith(lines[k], ConfidenceTag)) ==>
      Replay(lines).confidence == 0
  {
    VerdictFromLastLine(lines);
    ConfidenceFromLastLine(lines);
  }

  /** A last CONFIDENCE line whose payload holds anything but digits,
      underscores, signs and "%" (such as "CONFIDENCE: high") sets 0. */
  lemma UnreadableConfidence(lines: seq<string>, i: nat)
    requires LastTagged(lines, ConfidenceTag).Some?
    requires var cleaned := RemoveAll(Payload(LastTagged(lines, ConfidenceTag).value, ConfidenceTag), "%");
      i < |Strip(cleaned)| &&
      var c := Strip(cleaned)[i]; !IsDigit(c) && c != '_' && c != '-' && c != '+'
    ensures Replay(lines).confidence == 0
  {
    ConfidenceFromLastLine(lines);
    ParseIntRejects(RemoveAll(Payload(LastTagged(lines, ConfidenceTag).value, ConfidenceTag), "%"), i);
  }
}

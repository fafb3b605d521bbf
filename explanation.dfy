/** The top-three explanation built from the sorted attributions (app.py, lines 85-90).
    `fmt` stands for Python's `{impact:.2f}` formatting, which is not modelled. */
module Explanation {
  import opened Ranking

  const Header: string := "Loan Decision Based On:\n"

  /** How many of the sorted attributions the explanation reports. */
  const TopCount: nat := 3

  /** `feature_importance[:3]`: the first three entries, or all of them when there are fewer. */
  function TopOf(s: seq<Attribution>): (r: seq<Attribution>)
    ensures |r| == if |s| < TopCount then |s| else TopCount
    ensures r == s[..|r|]
  {
    if |s| < TopCount then s else s[..TopCount]
  }

  /** The explanation line of one entry. */
  function Line(p: Attribution, fmt: real -> string): (r: string)
  {
    "- " + p.feature + " impacted the score by " + fmt(p.impact) + "\n"
  }

  /** The reason string of one entry, as handed to the narrator. */
  function Reason(p: Attribution, fmt: real -> string): (r: string)
  {
    p.feature + " affected the score by " + fmt(p.impact)
  }

  /** A line is a bullet, the feature name, the formatted impact and a closing line break,
      so that name and impact can be read back off it. */
  lemma LineReadsBack(p: Attribution, fmt: real -> string)
    ensures var r := Line(p, fmt);
            |r| == 2 + |p.feature| + 23 + |fmt(p.impact)| + 1 &&
            r[..2] == "- " && r[2..2 + |p.feature|] == p.feature &&
            r[|r| - 1 - |fmt(p.impact)|..|r| - 1] == fmt(p.impact) && r[|r| - 1] == '\n'
  {
  }

  /** A reason starts with the feature name and ends with the formatted impact. */
  lemma ReasonReadsBack(p: Attribution, fmt: real -> string)
    ensures var r := Reason(p, fmt);
            |r| == |p.feature| + 23 + |fmt(p.impact)| &&
            r[..|p.feature|] == p.feature && r[|r| - |fmt(p.impact)|..] == fmt(p.impact)
  {
  }

  /** The lines of all entries, in order. */
  function LineList(s: seq<Attribution>, fmt: real -> string): (r: seq<string>)
  {
    seq(|s|, i requires 0 <= i < |s| => Line(s[i], fmt))
  }

  /** The reasons of all entries, in order: reason `i` describes entry `i`. */
  function Reasons(s: seq<Attribution>, fmt: real -> string): (r: seq<string>)
  {
    seq(|s|, i requires 0 <= i < |s| => Reason(s[i], fmt))
  }

  /** String concatenation of a list of strings, in order. */
  function Concat(ss: seq<string>): (r: string)
  {
    if ss == [] then "" else Concat(ss[..|ss| - 1]) + ss[|ss| - 1]
  }

  /** The full explanation text for the reported entries: the header, then their lines. */
  function ExplanationText(top: seq<Attribution>, fmt: real -> string): (r: string)
  {
    Header + Concat(LineList(top, fmt))
  }

  lemma {:induction false} ConcatAppend(ss: seq<string>, tt: seq<string>)
    ensures Concat(ss + tt) == Concat(ss) + Concat(tt)
  {
    if tt == [] {
      assert ss + tt == ss;
    } else {
      assert (ss + tt)[..|ss + tt| - 1] == ss + tt[..|tt| - 1];
      ConcatAppend(ss, tt[..|tt| - 1]);
    }
  }

  /** Number of occurrences of `c` in `s`. */
  function Count(s: string, c: char): (n: nat)
  {
    if s == [] then 0 else Count(s[..|s| - 1], c) + (if s[|s| - 1] == c then 1 else 0)
  }

  lemma {:induction false} CountAppend(s: string, t: string, c: char)
    ensures Count(s + t, c) == Count(s, c) + Count(t, c)
  {
    if t == [] {
      assert s + t == s;
    } else {
      assert (s + t)[..|s + t| - 1] == s + t[..|t| - 1];
      CountAppend(s, t[..|t| - 1], c);
    }
  }

  lemma CountAbsent(s: string, c: char)
    requires c !in s
    ensures Count(s, c) == 0
  {
  }

  lemma HeaderHasOneBreak()
    ensures Count(Header, '\n') == 1
  {
    assert Header == "Loan Decision Based On:" + "\n";
    CountAppend("Loan Decision Based On:", "\n", '\n');
    CountAbsent("Loan Decision Based On:", '\n');
  }

  /** Each entry's line ends in the only line break it holds, provided neither the name
      nor the formatted impact contains one. */
  lemma LineHasOneBreak(p: Attribution, fmt: real -> string)
    requires '\n' !in p.feature && '\n' !in fmt(p.impact)
    ensures Count(Line(p, fmt), '\n') == 1
  {
    CountAppend("- " + p.feature + " impacted the score by " + fmt(p.impact), "\n", '\n');
    CountAppend("- " + p.feature + " impacted the score by ", fmt(p.impact), '\n');
    CountAppend("- " + p.feature, " impacted the score by ", '\n');
    CountAppend("- ", p.feature, '\n');
    CountAbsent(p.feature, '\n');
    CountAbsent(fmt(p.impact), '\n');
    CountAbsent("- ", '\n');
    CountAbsent(" impacted the score by ", '\n');
  }

  /** Strings with one line break each concatenate to one line break per string. */
  lemma {:induction false} ConcatBreakCount(ss: seq<string>)
    requires forall i :: 0 <= i < |ss| ==> Count(ss[i], '\n') == 1
    ensures Count(Concat(ss), '\n') == |ss|
  {
    if ss != [] {
      var init := ss[..|ss| - 1];
      assert forall i :: 0 <= i < |init| ==> init[i] == ss[i];
      ConcatBreakCount(init);
      CountAppend(Concat(init), ss[|ss| - 1], '\n');
    }
  }

  /** The lines of `s` hold exactly one line break per entry. */
  lemma LinesBreakCount(s: seq<Attribution>, fmt: real -> string)
    requires forall x :: '\n' !in fmt(x)
    requires forall i :: 0 <= i < |s| ==> '\n' !in s[i].feature
    ensures Count(Concat(LineList(s, fmt)), '\n') == |s|
  {
    forall i | 0 <= i < |s| ensures Count(LineList(s, fmt)[i], '\n') == 1 {
      LineHasOneBreak(s[i], fmt);
    }
    ConcatBreakCount(LineList(s, fmt));
  }

  /** The explanation holds one line break for the header and one per entry. */
  lemma ExplanationBreakCount(top: seq<Attribution>, fmt: real -> string)
    requires forall x :: '\n' !in fmt(x)
    requires forall j :: 0 <= j < |top| ==> '\n' !in top[j].feature
    ensures Count(ExplanationText(top, fmt), '\n') == |top| + 1
  {
    HeaderHasOneBreak();
    LinesBreakCount(top, fmt);
    CountAppend(Header, Concat(LineList(top, fmt)), '\n');
  }

  /** A header followed by a concatenation, split around the concatenation's `i`-th string. */
  lemma ConcatAround(h: string, ss: seq<string>, i: nat)
    requires i < |ss|
    ensures h + Concat(ss) == h + Concat(ss[..i]) + ss[i] + Concat(ss[i + 1..])
  {
    ConcatSplitAt(ss, i + 1);
    ConcatPrefixStep(ss, i);
    AppendAssociates(h, Concat(ss[..i]), ss[i], Concat(ss[i + 1..]));
  }

  lemma ConcatSplitAt(ss: seq<string>, n: nat)
    requires n <= |ss|
    ensures Concat(ss) == Concat(ss[..n]) + Concat(ss[n..])
  {
    assert ss == ss[..n] + ss[n..];
    ConcatAppend(ss[..n], ss[n..]);
  }

  lemma ConcatPrefixStep(ss: seq<string>, i: nat)
    requires i < |ss|
    ensures Concat(ss[..i + 1]) == Concat(ss[..i]) + ss[i]
  {
    assert ss[..i + 1][..i] == ss[..i];
  }

  lemma AppendAssociates(h: string, a: string, x: string, b: string)
    ensures h + (a + x + b) == h + a + x + b
  {
  }

  /** The break count of a header and a concatenation of strings with one break each. */
  lemma HeaderAndLinesBreakCount(h: string, ss: seq<string>)
    requires Count(h, '\n') == 1
    requires forall i :: 0 <= i < |ss| ==> Count(ss[i], '\n') == 1
    ensures Count(h + Concat(ss), '\n') == |ss| + 1
  {
    ConcatBreakCount(ss);
    CountAppend(h, Concat(ss), '\n');
  }

  /** The explanation is the header followed by one line per entry: the line after the
      first `i + 1` line breaks is exactly the line of entry `i`. */
  lemma ExplanationLineAt(top: seq<Attribution>, fmt: real -> string, i: nat)
    requires forall x :: '\n' !in fmt(x)
    requires forall j :: 0 <= j < |top| ==> '\n' !in top[j].feature
    requires i < |top|
    ensures ExplanationText(top, fmt) ==
            Header + Concat(LineList(top[..i], fmt)) + Line(top[i], fmt) + Concat(LineList(top[i + 1..], fmt))
    ensures Count(Header + Concat(LineList(top[..i], fmt)), '\n') == i + 1
    ensures var before := Header + Concat(LineList(top[..i], fmt)); before[|before| - 1] == '\n'
  {
    var ss := LineList(top, fmt);
    assert ss[..i] == LineList(top[..i], fmt);
    assert ss[i + 1..] == LineList(top[i + 1..], fmt);
    ConcatAround(Header, ss, i);
    forall j | 0 <= j < i ensures Count(ss[..i][j], '\n') == 1 {
      LineHasOneBreak(top[j], fmt);
    }
    HeaderHasOneBreak();
    HeaderAndLinesBreakCount(Header, ss[..i]);
  }

  /** The loop of app.py, lines 86-90: walks the first three sorted entries, appending one
      line to the explanation and one reason to the list for each. */
  method BuildExplanation(a: array<Attribution>, fmt: real -> string)
    returns (text: string, reasons: seq<string>)
    ensures text == ExplanationText(TopOf(a[..]), fmt)
    ensures reasons == Reasons(TopOf(a[..]), fmt)
  {
    var n := if a.Length < TopCount then a.Length else TopCount;
    text := Header;
    reasons := [];
    for i := 0 to n
      invariant text == Header + Concat(LineList(a[..i], fmt))
      invariant reasons == Reasons(a[..i], fmt)
    {
      var feature, impact := a[i].feature, a[i].impact;
      var line := "- " + feature + " impacted the score by " + fmt(impact) + "\n";
      text := text + line;
      reasons := reasons + [feature + " affected the score by " + fmt(impact)];
      ghost var lines := LineList(a[..i + 1], fmt);
      assert lines[..i] == LineList(a[..i], fmt) && lines[i] == line;
    }
    assert TopOf(a[..]) == a[..n];
  }
}

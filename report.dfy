/** The text of the report built by `generate_report`
    (slack_bot.py:104-114): a header with the time stamp, then one line
    per group in ranking order. */
module Report {
  import opened Basics
  import opened Ranking

  const Divider: string := "━━━━━━━━━━━━━━━━━━"
  const Bullet: string := "  - "
  const Separator: string := ": "
  const Unit: string := "回\n"
  const AsOf: string := " 時点の集計結果"
  const Title: string := "🟢全チャンネル合計の回答回数降順:"

  /** The divider, the time stamp line, the divider, a blank line and the
      title line. */
  function Header(now: string): string {
    Divider + "\n" + now + AsOf + "\n" + Divider + "\n" + "\n" + Title + "\n"
  }

  predicate IsDigit(c: char) {
    '0' <= c <= '9'
  }

  predicate AllDigits(s: string) {
    forall i :: 0 <= i < |s| ==> IsDigit(s[i])
  }

  function DigitChar(d: nat): char
    requires d < 10
  {
    ('0' as int + d) as char
  }

  /** Python's `str` of a non-negative int: decimal, no leading zero. */
  function Decimal(n: nat): string {
    if n < 10 then [DigitChar(n)] else Decimal(n / 10) + [DigitChar(n % 10)]
  }

  /** The number a string of decimal digits denotes. */
  function DigitsValue(s: string): nat
    requires AllDigits(s)
  {
    if s == [] then 0 else DigitsValue(s[..|s| - 1]) * 10 + (s[|s| - 1] as int - '0' as int)
  }

  /** `Decimal` writes digits only, without a leading zero, and reading
      them back gives the number. */
  lemma {:induction false} DecimalRoundTrip(n: nat)
    ensures Decimal(n) != [] && AllDigits(Decimal(n))
    ensures |Decimal(n)| > 1 ==> Decimal(n)[0] != '0'
    ensures DigitsValue(Decimal(n)) == n
  {
    if n >= 10 {
      DecimalRoundTrip(n / 10);
      var p := Decimal(n / 10);
      var s := Decimal(n);
      assert s == p + [DigitChar(n % 10)];
      assert s[..|s| - 1] == p;
      assert forall i :: 0 <= i < |p| ==> s[i] == p[i];
    }
  }

  /** `f"  - {group_name}: {count}回\n"`. */
  function Line(g: Item): string {
    Bullet + g.0 + Separator + Decimal(g.1) + Unit
  }

  /** The lines of `groups`, in order. */
  function Lines(groups: seq<Item>): string {
    if groups == [] then [] else Lines(groups[..|groups| - 1]) + Line(groups[|groups| - 1])
  }

  /** The number of digits at the end of `s`. */
  function TrailingDigits(s: string): (k: nat)
    ensures k <= |s|
  {
    if s != [] && IsDigit(s[|s| - 1]) then TrailingDigits(s[..|s| - 1]) + 1 else 0
  }

  /** Reads a report line back: the group name and the count. */
  function ParseLine(line: string): Option<Item> {
    if |line| < |Bullet| + |Unit| || line[..|Bullet|] != Bullet || line[|line| - |Unit|..] != Unit then None
    else
      var body := line[|Bullet|..|line| - |Unit|];
      var k := TrailingDigits(body);
      var rest := body[..|body| - k];
      var digits := body[|body| - k..];
      if k == 0 || |rest| < |Separator| || rest[|rest| - |Separator|..] != Separator then None
      else
        assert AllDigits(digits) by { TrailingDigitsAreDigits(body); }
        Some((rest[..|rest| - |Separator|], DigitsValue(digits)))
  }

  lemma {:induction false} TrailingDigitsAreDigits(s: string)
    ensures forall i :: |s| - TrailingDigits(s) <= i < |s| ==> IsDigit(s[i])
  {
    if s != [] && IsDigit(s[|s| - 1]) {
      var p := s[..|s| - 1];
      TrailingDigitsAreDigits(p);
      assert TrailingDigits(s) == TrailingDigits(p) + 1;
      assert forall i :: 0 <= i < |p| ==> s[i] == p[i];
    }
  }

  /** Digits after a non-digit are exactly the trailing digits. */
  lemma {:induction false} TrailingDigitsOfSuffix(a: string, d: string)
    requires a != [] && !IsDigit(a[|a| - 1])
    requires AllDigits(d)
    ensures TrailingDigits(a + d) == |d|
  {
    if d == [] {
      assert a + d == a;
    } else {
      var d' := d[..|d| - 1];
      TrailingDigitsOfSuffix(a, d');
      assert (a + d)[..|a + d| - 1] == a + d';
    }
  }

  /** Every line reads back as the group it was written for, whatever
      characters the group name holds. */
  lemma LineRoundTrip(g: Item)
    ensures ParseLine(Line(g)) == Some(g)
  {
    var line := Line(g);
    var digits := Decimal(g.1);
    DecimalRoundTrip(g.1);
    var body := g.0 + Separator + digits;
    assert line[..|Bullet|] == Bullet;
    assert line[|line| - |Unit|..] == Unit;
    assert line[|Bullet|..|line| - |Unit|] == body;
    TrailingDigitsOfSuffix(g.0 + Separator, digits);
    assert body[..|body| - |digits|] == g.0 + Separator;
    assert body[|body| - |digits|..] == digits;
  }

  /** The loop `for group_name, count in sorted_groups: result += ...`
      after the header. */
  method RenderReport(now: string, groups: seq<Item>) returns (result: string)
    ensures result == Header(now) + Lines(groups)
  {
    result := Header(now);
    for i := 0 to |groups|
      invariant result == Header(now) + Lines(groups[..i])
    {
      assert groups[..i + 1][..i] == groups[..i];
      result := result + Line(groups[i]);
    }
    assert groups[..|groups|] == groups;
  }

  /** The number of line breaks in `s`. */
  function Newlines(s: string): nat {
    if s == [] then 0 else Newlines(s[..|s| - 1]) + (if s[|s| - 1] == '\n' then 1 else 0)
  }

  lemma {:induction false} NewlinesAppend(a: string, b: string)
    ensures Newlines(a + b) == Newlines(a) + Newlines(b)
  {
    if b == [] {
      assert a + b == a;
    } else {
      NewlinesAppend(a, b[..|b| - 1]);
      assert (a + b)[..|a + b| - 1] == a + b[..|b| - 1];
    }
  }

  lemma {:induction false} NoNewlines(s: string)
    requires forall i :: 0 <= i < |s| ==> s[i] != '\n'
    ensures Newlines(s) == 0
  {
    if s != [] {
      NoNewlines(s[..|s| - 1]);
    }
  }

  /** Each group takes exactly one line of the report, after the five
      header lines, when neither the time stamp nor any group name holds a
      line break. */
  lemma {:induction false} ReportLineCount(now: string, groups: seq<Item>)
    requires forall i :: 0 <= i < |now| ==> now[i] != '\n'
    requires forall j, i :: 0 <= j < |groups| && 0 <= i < |groups[j].0| ==> groups[j].0[i] != '\n'
    ensures Newlines(Header(now) + Lines(groups)) == 5 + |groups|
  {
    HeaderNewlines(now);
    LinesNewlines(groups);
    NewlinesAppend(Header(now), Lines(groups));
  }

  lemma HeaderNewlines(now: string)
    requires forall i :: 0 <= i < |now| ==> now[i] != '\n'
    ensures Newlines(Header(now)) == 5
  {
    NoNewlines(now);
    NoNewlines(Divider);
    NoNewlines(AsOf);
    NoNewlines(Title);
    assert Newlines("\n") == 1 by { assert "\n"[..0] == []; }
    var h := Divider;
    NewlinesAppend(h, "\n");
    h := h + "\n";
    NewlinesAppend(h, now);
    h := h + now;
    NewlinesAppend(h, AsOf);
    h := h + AsOf;
    NewlinesAppend(h, "\n");
    h := h + "\n";
    NewlinesAppend(h, Divider);
    h := h + Divider;
    NewlinesAppend(h, "\n");
    h := h + "\n";
    NewlinesAppend(h, "\n");
    h := h + "\n";
    NewlinesAppend(h, Title);
    h := h + Title;
    NewlinesAppend(h, "\n");
    h := h + "\n";
    assert h == Header(now);
  }

  lemma {:induction false} LinesNewlines(groups: seq<Item>)
    requires forall j, i :: 0 <= j < |groups| && 0 <= i < |groups[j].0| ==> groups[j].0[i] != '\n'
    ensures Newlines(Lines(groups)) == |groups|
  {
    if groups != [] {
      var g := groups[|groups| - 1];
      LinesNewlines(groups[..|groups| - 1]);
      DecimalRoundTrip(g.1);
      var text := Bullet + g.0 + Separator + Decimal(g.1) + "回";
      NoNewlines(text);
      NewlinesAppend(text, "\n");
      assert Newlines("\n") == 1 by { assert "\n"[..0] == []; }
      assert Line(g) == text + "\n";
      NewlinesAppend(Lines(groups[..|groups| - 1]), Line(g));
    }
  }
}

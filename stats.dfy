/** The animated counter of the statistics section: a display value such as
    "₹470 Cr+" is split into the text before its first run of digits, the
    number that run denotes and the text after it; on each animation frame
    the number shown climbs from 0 to that target along an ease-out-quart
    curve over two seconds. */
module Stats {
  import opened Wrappers
  import opened Seqs
  import opened Decimal

  /** The statistics shown, as (name, value). */
  const STATS: seq<(string, string)> := [
    ("Transaction", "\U{20B9}470 Cr+"),
    ("Institutional Investors", "6+"),
    ("Trades", "3900K+"),
    ("Years Active", "3+"),
    ("Custom Automation Completed", "260+")
  ]

  // ---------------------------------------------------------------------------
  // Parsing the display value
  // ---------------------------------------------------------------------------

  /** The index of the first digit of `s`, or `|s|` when there is none. */
  function FirstDigit(s: string): (i: nat)
    ensures i <= |s|
    ensures forall k :: 0 <= k < i ==> !IsDigit(s[k])
    ensures i < |s| ==> IsDigit(s[i])
  {
    if s == [] then 0 else if IsDigit(s[0]) then 0 else 1 + FirstDigit(s[1..])
  }

  /** The end of the run of digits that starts at `i`. */
  function RunEnd(s: string, i: nat): (j: nat)
    requires i <= |s|
    ensures i <= j <= |s|
    ensures forall k :: i <= k < j ==> IsDigit(s[k])
    ensures j < |s| ==> !IsDigit(s[j])
    decreases |s| - i
  {
    if i < |s| && IsDigit(s[i]) then RunEnd(s, i + 1) else i
  }

  /** `value.match(/\d+/)`: the leftmost, longest run of digits, if any. */
  function MatchDigits(s: string): (m: Option<string>)
    ensures m.None? <==> !HasDigit(s)
  {
    var i := FirstDigit(s);
    if i == |s| then None else Some(s[i..RunEnd(s, i)])
  }

  /** `s.indexOf(t, from)`: the first position at or after `from` where `t`
      occurs, or -1. */
  function IndexFrom(s: string, t: string, from: nat): (r: int)
    ensures r == -1 || (from <= r && OccursAt(s, t, r))
    ensures forall k: nat :: from <= k && (r == -1 || k < r) ==> !OccursAt(s, t, k)
    decreases |s| - from
  {
    if from + |t| > |s| then -1
    else if OccursAt(s, t, from) then from
    else IndexFrom(s, t, from + 1)
  }

  function IndexOf(s: string, t: string): int {
    IndexFrom(s, t, 0)
  }

  /** What the counter takes from its display value. */
  datatype Parsed = Parsed(prefix: string, digits: string, target: nat, suffix: string)

  /** The parse at the top of `Counter`: the match, `parseInt` of it, and the
      slices before and after the first occurrence of the matched text. A
      value without a digit has no match, and the slices dereference the
      missing match, so the component throws; that case is `None`. */
  function Parse(value: string): (r: Option<Parsed>)
    ensures r.None? <==> !HasDigit(value)
  {
    match MatchDigits(value)
    case None => None
    case Some(digits) =>
      IndexOfFindsMatch(value);
      var at := IndexOf(value, digits);
      Some(Parsed(value[..at], digits, Value(digits), value[at + |digits|..]))
  }

  /** A split of `value` around a digit run that is the first in the value and
      is not extended on the right. */
  ghost predicate SplitsAtFirstRun(value: string, p: Parsed) {
    && value == p.prefix + p.digits + p.suffix
    && !HasDigit(p.prefix)
    && |p.digits| > 0 && AllDigits(p.digits)
    && (p.suffix == [] || !IsDigit(p.suffix[0]))
    && p.target == Value(p.digits)
  }

  /** A search that reaches a position where `t` occurs, passing none, stops there. */
  lemma {:induction false} IndexFromReaches(s: string, t: string, from: nat, i: nat)
    requires from <= i && OccursAt(s, t, i)
    requires forall k: nat :: from <= k < i ==> !OccursAt(s, t, k)
    ensures IndexFrom(s, t, from) == i
    decreases i - from
  {
    if from < i {
      IndexFromReaches(s, t, from + 1, i);
    }
  }

  /** The occurrence `indexOf` finds is the match itself: nothing before the
      first digit can start a run of digits. */
  lemma IndexOfFindsMatch(s: string)
    requires HasDigit(s)
    ensures IndexOf(s, MatchDigits(s).value) == FirstDigit(s)
  {
    var i := FirstDigit(s);
    var t := MatchDigits(s).value;
    assert t == s[i..RunEnd(s, i)] && |t| > 0 && t[0] == s[i];
    assert OccursAt(s, t, i);
    forall k: nat | k < i
      ensures !OccursAt(s, t, k)
    {
      assert s[k..k + |t|][0] == s[k];
    }
    IndexFromReaches(s, t, 0, i);
  }

  /** The first position holding a digit is `FirstDigit`. */
  lemma {:induction false} FirstDigitAt(s: string, i: nat)
    requires i < |s| && IsDigit(s[i])
    requires forall k :: 0 <= k < i ==> !IsDigit(s[k])
    ensures FirstDigit(s) == i
  {
    if i > 0 {
      assert forall k :: 0 <= k < i - 1 ==> s[1..][k] == s[k + 1];
      FirstDigitAt(s[1..], i - 1);
    }
  }

  /** A value with a digit parses into the text before its first run of
      digits, the run and the text after it, and the target is the run's
      decimal value. */
  lemma {:induction false} ParseSplits(value: string)
    requires HasDigit(value)
    ensures Parse(value).Some? && SplitsAtFirstRun(value, Parse(value).value)
  {
    IndexOfFindsMatch(value);
    var i := FirstDigit(value);
    var j := RunEnd(value, i);
    var p := Parse(value).value;
    assert p == Parsed(value[..i], value[i..j], Value(value[i..j]), value[j..]);
    assert value == value[..i] + value[i..j] + value[j..];
    RunIsDigits(value, i, j);
    BeforeFirstDigit(value, i);
    if p.suffix != [] {
      assert p.suffix[0] == value[j];
    }
  }

  lemma RunIsDigits(s: string, i: nat, j: nat)
    requires i <= j <= |s|
    requires forall k :: i <= k < j ==> IsDigit(s[k])
    ensures AllDigits(s[i..j])
  {
    assert forall k :: 0 <= k < j - i ==> s[i..j][k] == s[i + k];
  }

  lemma BeforeFirstDigit(s: string, i: nat)
    requires i <= |s|
    requires forall k :: 0 <= k < i ==> !IsDigit(s[k])
    ensures !HasDigit(s[..i])
  {
    assert forall k :: 0 <= k < i ==> s[..i][k] == s[k];
  }

  /** The split is unique: any split of `value` around a first, unextended
      digit run is the one the parse returns. */
  lemma ParseUnique(value: string, q: Parsed)
    requires SplitsAtFirstRun(value, q)
    ensures Parse(value) == Some(q)
  {
    var i := |q.prefix|;
    var j := i + |q.digits|;
    assert value[..i] == q.prefix && value[i..j] == q.digits && value[j..] == q.suffix;
    assert IsDigit(value[i]) by {
      assert value[i] == value[i..j][0];
    }
    assert forall k :: 0 <= k < i ==> !IsDigit(value[k]) by {
      forall k | 0 <= k < i
        ensures !IsDigit(value[k])
      {
        assert value[k] == value[..i][k];
      }
    }
    FirstDigitAt(value, i);
    assert forall k :: i <= k < j ==> IsDigit(value[k]) by {
      forall k | i <= k < j
        ensures IsDigit(value[k])
      {
        assert value[k] == value[i..j][k - i];
      }
    }
    assert j < |value| ==> value[j] == q.suffix[0] by {
      if j < |value| {
        assert value[j] == value[j..][0];
      }
    }
    RunEndOfRun(value, i, j);
    assert HasDigit(value);
    IndexOfFindsMatch(value);
  }

  lemma {:induction false} RunEndOfRun(s: string, i: nat, j: nat)
    requires i <= j <= |s|
    requires forall k :: i <= k < j ==> IsDigit(s[k])
    requires j < |s| ==> !IsDigit(s[j])
    ensures RunEnd(s, i) == j
    decreases j - i
  {
    if i < j {
      RunEndOfRun(s, i + 1, j);
    }
  }

  /** The example of the comment on the parse: "₹470 Cr+" gives "₹", 470 and " Cr+". */
  lemma ParseRupees()
    ensures Parse(STATS[0].1) == Some(Parsed("\U{20B9}", "470", 470, " Cr+"))
  {
    assert Value("470") == 470 by {
      assert "470"[..2] == "47" && "47"[..1] == "4" && "4"[..0] == "";
    }
    var q := Parsed("\U{20B9}", "470", 470, " Cr+");
    assert STATS[0].1 == q.prefix + q.digits + q.suffix;
    ParseUnique(STATS[0].1, q);
  }

  lemma FixtureValues()
    ensures Value("6") == 6 && Value("3") == 3 && Value("3900") == 3900 && Value("260") == 260
  {
    assert "6"[..0] == "" && "3"[..0] == "";
    assert "3900"[..3] == "390" && "390"[..2] == "39" && "39"[..1] == "3";
    assert "260"[..2] == "26" && "26"[..1] == "2" && "2"[..0] == "";
  }

  /** The targets of the other four statistics: 6, 3900, 3 and 260. */
  lemma ParseFixture()
    ensures Parse(STATS[1].1) == Some(Parsed("", "6", 6, "+"))
    ensures Parse(STATS[2].1) == Some(Parsed("", "3900", 3900, "K+"))
    ensures Parse(STATS[3].1) == Some(Parsed("", "3", 3, "+"))
    ensures Parse(STATS[4].1) == Some(Parsed("", "260", 260, "+"))
  {
    FixtureValues();
    assert STATS[1].1 == "6+" && STATS[2].1 == "3900K+" && STATS[3].1 == "3+" && STATS[4].1 == "260+";
    assert Parse("6+") == Some(Parsed("", "6", 6, "+")) by {
      ParseUnique("6+", Parsed("", "6", 6, "+"));
    }
    assert Parse("3900K+") == Some(Parsed("", "3900", 3900, "K+")) by {
      ParseUnique("3900K+", Parsed("", "3900", 3900, "K+"));
    }
    assert Parse("3+") == Some(Parsed("", "3", 3, "+")) by {
      ParseUnique("3+", Parsed("", "3", 3, "+"));
    }
    assert Parse("260+") == Some(Parsed("", "260", 260, "+")) by {
      ParseUnique("260+", Parsed("", "260", 260, "+"));
    }
  }

  // ---------------------------------------------------------------------------
  // The easing curve
  // ---------------------------------------------------------------------------

  /** The animation length in milliseconds. */
  const DURATION: real := 2000.0

  /** `Math.min(elapsed / duration, 1)`. */
  function Progress(elapsed: real): real {
    if elapsed / DURATION < 1.0 then elapsed / DURATION else 1.0
  }

  /** `1 - Math.pow(1 - progress, 4)`. */
  function EaseOutQuart(p: real): real {
    var q := 1.0 - p;
    1.0 - q * q * q * q
  }

  /** `Math.floor(easeOutQuart * targetNumber)`. */
  function CountAt(elapsed: real, target: nat): int {
    (EaseOutQuart(Progress(elapsed)) * target as real).Floor
  }

  lemma ProgressBounds(elapsed: real)
    requires elapsed >= 0.0
    ensures 0.0 <= Progress(elapsed) <= 1.0
    ensures Progress(elapsed) == 1.0 <==> elapsed >= DURATION
  {
  }

  lemma MulMonotone(x: real, y: real, z: real)
    requires 0.0 <= x && y <= z
    ensures x * y <= x * z
  {
    assert x * z - x * y == x * (z - y);
  }

  lemma FourthPowerMonotone(a: real, b: real)
    requires 0.0 <= a <= b
    ensures a * a * a * a <= b * b * b * b
  {
    MulMonotone(a, a, b);
    MulMonotone(b, a, b);
    var a2, b2 := a * a, b * b;
    assert a2 >= 0.0 by {
      MulMonotone(a, 0.0, a);
    }
    MulMonotone(a2, a2, b2);
    MulMonotone(b2, a2, b2);
    assert a * a * a * a == a2 * a2 && b * b * b * b == b2 * b2;
  }

  /** The curve stays in [0, 1] and never falls. */
  lemma EaseMonotone(p: real, q: real)
    requires 0.0 <= p <= q <= 1.0
    ensures 0.0 <= EaseOutQuart(p) <= EaseOutQuart(q) <= 1.0
  {
    FourthPowerMonotone(1.0 - q, 1.0 - p);
    FourthPowerMonotone(1.0 - p, 1.0);
    FourthPowerMonotone(0.0, 1.0 - q);
  }

  /** The count shown lies between 0 and the target. */
  lemma CountBounds(elapsed: real, target: nat)
    requires elapsed >= 0.0
    ensures 0 <= CountAt(elapsed, target) <= target
  {
    ProgressBounds(elapsed);
    EaseMonotone(Progress(elapsed), Progress(elapsed));
    var e := EaseOutQuart(Progress(elapsed));
    MulMonotone(target as real, 0.0, e);
    MulMonotone(target as real, e, 1.0);
    assert 0.0 <= e * target as real <= target as real;
  }

  /** The count never falls as time passes. */
  lemma CountMonotone(e1: real, e2: real, target: nat)
    requires 0.0 <= e1 <= e2
    ensures CountAt(e1, target) <= CountAt(e2, target)
  {
    ProgressBounds(e1);
    ProgressBounds(e2);
    EaseMonotone(Progress(e1), Progress(e2));
    var x1, x2 := EaseOutQuart(Progress(e1)), EaseOutQuart(Progress(e2));
    MulMonotone(target as real, x1, x2);
    assert x1 * target as real <= x2 * target as real;
  }

  /** The first frame shows 0. */
  lemma CountAtStart(target: nat)
    ensures CountAt(0.0, target) == 0
  {
  }

  /** From two seconds on the count is the target. */
  lemma CountComplete(elapsed: real, target: nat)
    requires elapsed >= DURATION
    ensures CountAt(elapsed, target) == target
  {
    assert Progress(elapsed) == 1.0;
    assert EaseOutQuart(1.0) == 1.0;
  }

  // ---------------------------------------------------------------------------
  // Rendering
  // ---------------------------------------------------------------------------

  /** `{prefix}{count}{suffix}`. */
  function Rendered(p: Parsed, count: nat): string {
    p.prefix + Render(count) + p.suffix
  }

  /** Once the count reaches its target the counter shows the original value,
      provided the digit run had no leading zero. */
  lemma RenderedAtCompletion(value: string, elapsed: real)
    requires HasDigit(value) && elapsed >= DURATION
    requires Canonical(Parse(value).value.digits)
    ensures Rendered(Parse(value).value, CountAt(elapsed, Parse(value).value.target)) == value
  {
    var p := Parse(value).value;
    ParseSplits(value);
    CountComplete(elapsed, p.target);
    RenderOfValue(p.digits);
  }

  /** A digit run with a leading zero is shown without it at completion. */
  lemma LeadingZeroDropped()
    ensures Parse("07+").Some? && Rendered(Parse("07+").value, Parse("07+").value.target) == "7+"
  {
    ParseUnique("07+", Parsed("", "07", 7, "+"));
    assert Value("07") == 7 by {
      assert "07"[..1] == "0";
      assert "0"[..0] == [];
    }
  }

  // ---------------------------------------------------------------------------
  // The animation
  // ---------------------------------------------------------------------------

  /** The counter's animation state: the `count` state variable, the
      `startTime` the effect's closure keeps (0 standing for undefined, both
      being falsy) and whether a frame is requested. */
  class CounterView {
    const target: nat
    var count: int
    var startTime: real
    var frameRequested: bool

    /** The first render: `useState(0)`, nothing scheduled. */
    constructor(target: nat)
      ensures this.target == target && count == 0 && startTime == 0.0 && !frameRequested
    {
      this.target := target;
      count := 0;
      startTime := 0.0;
      frameRequested := false;
    }

    /** The effect: once the counter is in view a fresh animation starts with
        its start time unset and a frame requested. */
    method Start(isInView: bool)
      modifies this
      ensures isInView ==> startTime == 0.0 && frameRequested && count == old(count)
      ensures !isInView ==> unchanged(this)
    {
      if !isInView {
        return;
      }
      startTime := 0.0;
      frameRequested := true;
    }

    /** `animate(currentTime)`: fix the start time on the first frame, show the
        eased count, and ask for another frame while the progress is below 1. */
    method Animate(currentTime: real)
      modifies this
      ensures startTime == (if old(startTime) == 0.0 then currentTime else old(startTime))
      ensures count == CountAt(currentTime - startTime, target)
      ensures frameRequested <==> currentTime - startTime < DURATION
      ensures old(startTime) == 0.0 ==> count == 0
      ensures currentTime >= startTime ==> 0 <= count <= target
      ensures !frameRequested ==> count == target
    {
      if startTime == 0.0 {
        startTime := currentTime;
      }
      var elapsed := currentTime - startTime;
      var progress := Progress(elapsed);
      var easeOutQuart := EaseOutQuart(progress);
      count := (easeOutQuart * target as real).Floor;
      frameRequested := progress < 1.0;
      if elapsed == 0.0 {
        CountAtStart(target);
      }
      if elapsed >= 0.0 {
        CountBounds(elapsed, target);
      }
      if !frameRequested {
        CountComplete(elapsed, target);
      }
    }
  }
}

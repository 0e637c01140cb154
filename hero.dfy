/** The hero banner's rotating words: every two seconds the index of the word
    shown moves on by one, wrapping around; each word is placed by its
    distance from the current one, and is broken at its spaces into parts
    separated by a line break (narrow screens) and a space (wider ones). */
module Hero {

  const WORDS: seq<string> := ["Quantitative Trading", "Quantitative Investing", "Algorithmic Trading"]

  // ---------------------------------------------------------------------------
  // Rotation
  // ---------------------------------------------------------------------------

  /** The interval's updater, `(prev + 1) % words.length`. */
  function NextIndex(prev: nat): (r: nat)
    ensures r < |WORDS|
    ensures prev < |WORDS| - 1 ==> r == prev + 1
    ensures prev == |WORDS| - 1 ==> r == 0
  {
    (prev + 1) % |WORDS|
  }

  /** The index after `ticks` intervals, from `useState(0)`. */
  function IndexAfter(ticks: nat): nat {
    if ticks == 0 then 0 else NextIndex(IndexAfter(ticks - 1))
  }

  /** The index is the number of ticks modulo the number of words, so it always
      names a word. */
  lemma {:induction false} IndexAfterIsRemainder(ticks: nat)
    ensures IndexAfter(ticks) == ticks % |WORDS|
    ensures IndexAfter(ticks) < |WORDS|
  {
    if ticks > 0 {
      IndexAfterIsRemainder(ticks - 1);
    }
  }

  /** After as many ticks as there are words the same word is back, and no
      sooner: the rotation has period three. */
  lemma RotationPeriod(ticks: nat, k: nat)
    ensures IndexAfter(ticks + |WORDS|) == IndexAfter(ticks)
    ensures 0 < k < |WORDS| ==> IndexAfter(ticks + k) != IndexAfter(ticks)
  {
    IndexAfterIsRemainder(ticks);
    IndexAfterIsRemainder(ticks + |WORDS|);
    IndexAfterIsRemainder(ticks + k);
  }

  // ---------------------------------------------------------------------------
  // Placement
  // ---------------------------------------------------------------------------

  /** Whether the word at `index` carries the `visible` class. */
  predicate IsVisible(index: nat, current: nat) {
    index == current
  }

  /** How many of the words `from .. |WORDS|-1` carry the class. */
  function VisibleCount(current: nat, from: nat): nat
    requires from <= |WORDS|
    decreases |WORDS| - from
  {
    if from == |WORDS| then 0 else (if IsVisible(from, current) then 1 else 0) + VisibleCount(current, from + 1)
  }

  lemma {:induction false} VisibleCountFrom(current: nat, from: nat)
    requires from <= |WORDS|
    ensures VisibleCount(current, from) == if from <= current < |WORDS| then 1 else 0
    decreases |WORDS| - from
  {
    if from < |WORDS| {
      VisibleCountFrom(current, from + 1);
    }
  }

  /** Exactly one word, the current one, is visible at every tick. */
  lemma ExactlyOneVisible(ticks: nat)
    ensures VisibleCount(IndexAfter(ticks), 0) == 1
    ensures forall i :: 0 <= i < |WORDS| ==> (IsVisible(i, IndexAfter(ticks)) <==> i == IndexAfter(ticks))
  {
    IndexAfterIsRemainder(ticks);
    VisibleCountFrom(IndexAfter(ticks), 0);
  }

  /** `(index - currentIndex) * 100`: the word's vertical offset in percent. */
  function Offset(index: nat, current: nat): (r: int)
    ensures r == 0 <==> index == current
    ensures r < 0 <==> index < current
    ensures r > 0 <==> index > current
    ensures r % 100 == 0
  {
    (index - current) * 100
  }

  /** Neighbouring words sit one full height apart. */
  lemma OffsetsStep(index: nat, current: nat)
    ensures Offset(index + 1, current) == Offset(index, current) + 100
    ensures Offset(index, current + 1) == Offset(index, current) - 100
  {
  }

  // ---------------------------------------------------------------------------
  // Splitting a word
  // ---------------------------------------------------------------------------

  /** `word.split(' ')`: the text between consecutive spaces, so a word with k
      spaces has k + 1 parts, some of them empty if spaces are adjacent. */
  function Split(s: string): (parts: seq<string>)
    ensures |parts| >= 1
  {
    if s == [] then [""]
    else
      var rest := Split(s[1..]);
      if s[0] == ' ' then [""] + rest else [[s[0]] + rest[0]] + rest[1..]
  }

  function Spaces(s: string): nat {
    if s == [] then 0 else (if s[0] == ' ' then 1 else 0) + Spaces(s[1..])
  }

  /** The parts put back together with single spaces. */
  function Join(parts: seq<string>): string
    requires |parts| >= 1
  {
    if |parts| == 1 then parts[0] else parts[0] + " " + Join(parts[1..])
  }

  predicate NoSpace(s: string) {
    forall j :: 0 <= j < |s| ==> s[j] != ' '
  }

  /** There is one part more than there are spaces, and no part holds a space. */
  lemma {:induction false} SplitParts(s: string)
    ensures |Split(s)| == Spaces(s) + 1
    ensures forall k :: 0 <= k < |Split(s)| ==> NoSpace(Split(s)[k])
  {
    if s != [] {
      SplitParts(s[1..]);
      var rest := Split(s[1..]);
      if s[0] != ' ' {
        assert NoSpace([s[0]] + rest[0]) by {
          assert forall j :: 1 <= j < |[s[0]] + rest[0]| ==> ([s[0]] + rest[0])[j] == rest[0][j - 1];
        }
        assert forall k :: 1 <= k < |Split(s)| ==> Split(s)[k] == rest[k];
      } else {
        assert forall k :: 1 <= k < |Split(s)| ==> Split(s)[k] == rest[k - 1];
      }
    }
  }

  /** Text before the first space becomes the first part. */
  lemma {:induction false} SplitAtSpace(a: string, b: string)
    requires NoSpace(a)
    ensures Split(a + " " + b) == [a] + Split(b)
  {
    if a == [] {
      assert a + " " + b == [' '] + b;
      assert ([' '] + b)[1..] == b;
    } else {
      var s := a + " " + b;
      assert s[0] == a[0] && s[1..] == a[1..] + " " + b;
      SplitAtSpace(a[1..], b);
      assert [a[0]] + a[1..] == a;
    }
  }

  lemma {:induction false} SplitWithoutSpace(a: string)
    requires NoSpace(a)
    ensures Split(a) == [a]
  {
    if a != [] {
      SplitWithoutSpace(a[1..]);
      assert [a[0]] + a[1..] == a;
    }
  }

  /** Splitting undoes joining parts that hold no space: the two are inverse. */
  lemma {:induction false} SplitJoin(parts: seq<string>)
    requires |parts| >= 1 && forall k :: 0 <= k < |parts| ==> NoSpace(parts[k])
    ensures Split(Join(parts)) == parts
  {
    if |parts| == 1 {
      SplitWithoutSpace(parts[0]);
    } else {
      SplitJoin(parts[1..]);
      SplitAtSpace(parts[0], Join(parts[1..]));
    }
  }

  /** Joining the parts with spaces gives the word back. */
  lemma {:induction false} JoinSplit(s: string)
    ensures Join(Split(s)) == s
  {
    if s != [] {
      var rest := Split(s[1..]);
      JoinSplit(s[1..]);
      if s[0] == ' ' {
        assert Split(s)[1..] == rest;
      } else if |rest| == 1 {
        assert Join(Split(s)) == [s[0]] + rest[0];
      } else {
        var parts := Split(s);
        assert parts[1..] == rest[1..];
        assert Join(rest) == rest[0] + " " + Join(rest[1..]);
      }
    }
  }

  /** What each part renders to. */
  datatype Node = Text(text: string) | LineBreak | Space

  /** The `span` for part `i`: the part, then a line break and a space unless
      it is the last part. */
  function Item(parts: seq<string>, i: nat): seq<Node>
    requires i < |parts|
  {
    [Text(parts[i])] + (if i < |parts| - 1 then [LineBreak, Space] else [])
  }

  /** The spans for parts `i ..`, in order. */
  function Items(parts: seq<string>, i: nat): seq<Node>
    requires i <= |parts|
    decreases |parts| - i
  {
    if i == |parts| then [] else Item(parts, i) + Items(parts, i + 1)
  }

  function CountOf(nodes: seq<Node>, n: Node): nat {
    if nodes == [] then 0 else (if nodes[0] == n then 1 else 0) + CountOf(nodes[1..], n)
  }

  lemma {:induction false} CountOfConcat(a: seq<Node>, b: seq<Node>, n: Node)
    ensures CountOf(a + b, n) == CountOf(a, n) + CountOf(b, n)
  {
    if a != [] {
      assert (a + b)[0] == a[0] && (a + b)[1..] == a[1..] + b;
      CountOfConcat(a[1..], b, n);
    } else {
      assert a + b == b;
    }
  }

  /** A part's span holds one line break and one space, except the last's. */
  lemma ItemContents(parts: seq<string>, i: nat)
    requires i < |parts|
    ensures CountOf(Item(parts, i), LineBreak) == CountOf(Item(parts, i), Space) == if i < |parts| - 1 then 1 else 0
    ensures WideText(Item(parts, i)) == if i < |parts| - 1 then parts[i] + " " else parts[i]
  {
    var it := Item(parts, i);
    if i < |parts| - 1 {
      var t1, t2 := [LineBreak, Space], [Space];
      assert it == [Text(parts[i])] + t1 && t1[1..] == t2 && t2[1..] == [];
      assert CountOf(t2, LineBreak) == 0 && CountOf(t2, Space) == 1 && WideText(t2) == " ";
      assert CountOf(t1, LineBreak) == 1 && CountOf(t1, Space) == 1 && WideText(t1) == " ";
    } else {
      assert it == [Text(parts[i])] && it[1..] == [];
    }
  }

  lemma {:induction false} ItemsSeparators(parts: seq<string>, i: nat)
    requires i < |parts|
    ensures CountOf(Items(parts, i), LineBreak) == |parts| - 1 - i
    ensures CountOf(Items(parts, i), Space) == |parts| - 1 - i
    decreases |parts| - i
  {
    CountOfConcat(Item(parts, i), Items(parts, i + 1), LineBreak);
    CountOfConcat(Item(parts, i), Items(parts, i + 1), Space);
    ItemContents(parts, i);
    if i + 1 < |parts| {
      ItemsSeparators(parts, i + 1);
    }
  }

  /** A word with k parts gets k - 1 line breaks and k - 1 spaces, one after
      every part but the last. */
  lemma Separators(word: string)
    ensures CountOf(Items(Split(word), 0), LineBreak) == |Split(word)| - 1
    ensures CountOf(Items(Split(word), 0), Space) == |Split(word)| - 1
  {
    ItemsSeparators(Split(word), 0);
  }

  /** The text a wide screen shows, where the line breaks are hidden. */
  function WideText(nodes: seq<Node>): string {
    if nodes == [] then ""
    else
      (match nodes[0] case Text(t) => t case LineBreak => "" case Space => " ")
      + WideText(nodes[1..])
  }

  lemma {:induction false} WideTextConcat(a: seq<Node>, b: seq<Node>)
    ensures WideText(a + b) == WideText(a) + WideText(b)
  {
    if a != [] {
      assert (a + b)[0] == a[0] && (a + b)[1..] == a[1..] + b;
      WideTextConcat(a[1..], b);
    } else {
      assert a + b == b;
    }
  }

  lemma {:induction false} WideTextItems(parts: seq<string>, i: nat)
    requires i < |parts|
    ensures WideText(Items(parts, i)) == Join(parts[i..])
    decreases |parts| - i
  {
    WideTextConcat(Item(parts, i), Items(parts, i + 1));
    ItemContents(parts, i);
    if i + 1 < |parts| {
      WideTextItems(parts, i + 1);
      assert parts[i..][1..] == parts[i + 1..];
    } else {
      assert parts[i..] == [parts[i]];
    }
  }

  /** On a wide screen each word reads exactly as written. */
  lemma WideTextIsWord(word: string)
    ensures WideText(Items(Split(word), 0)) == word
  {
    WideTextItems(Split(word), 0);
    assert Split(word)[0..] == Split(word);
    JoinSplit(word);
  }

  /** A word made of two parts without spaces, joined by one, splits into the two. */
  lemma SplitTwo(w: string, a: string, b: string)
    requires w == a + " " + b && NoSpace(a) && NoSpace(b)
    ensures Split(w) == [a, b]
  {
    SplitAtSpace(a, b);
    SplitWithoutSpace(b);
  }

  /** Each of the three words has two parts, so one separator. */
  lemma WordParts(i: nat)
    requires i < |WORDS|
    ensures |Split(WORDS[i])| == 2
  {
    var w := WORDS[i];
    if i == 0 {
      SplitTwo(w, "Quantitative", "Trading");
    } else if i == 1 {
      SplitTwo(w, "Quantitative", "Investing");
    } else {
      SplitTwo(w, "Algorithmic", "Trading");
    }
  }

  /** So each word shows one line break and one space. */
  lemma WordSeparators(i: nat)
    requires i < |WORDS|
    ensures CountOf(Items(Split(WORDS[i]), 0), LineBreak) == 1
    ensures CountOf(Items(Split(WORDS[i]), 0), Space) == 1
  {
    WordParts(i);
    Separators(WORDS[i]);
  }
}

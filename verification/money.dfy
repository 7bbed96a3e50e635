/** `utils/money.ts`: the digit filter `parseMoney` and the thousands grouping `formatMoney` of
    the admin client. */
module Money {
  import opened Seqs
  import opened Text
  import opened Js

  /** `/\B(?=(\d{3})+(?!\d))/` matches at position `i` of a digit string of length `n`: strictly
      inside the string (a non-boundary between two digits) with a positive multiple of three
      digits, and then the end, after it. */
  predicate SeparatorAt(n: nat, i: nat) {
    0 < i < n && Rem3(n - i) == 0
  }

  /** The remainder of `k` by three, by repeated subtraction. */
  function Rem3(k: nat): (r: nat)
    ensures r < 3
  {
    if k < 3 then k else Rem3(k - 3)
  }

  lemma {:induction false} Rem3IsMod(k: nat)
    ensures Rem3(k) == k % 3
  {
    if k >= 3 {
      Rem3IsMod(k - 3);
    }
  }

  /** `d.replace(/\B(?=(\d{3})+(?!\d))/g, sep)` from position `i` on: every matching position
      receives a `sep`. */
  function ReplaceFrom(d: string, sep: char, i: nat): string
    decreases |d| - i
  {
    if i >= |d| then []
    else (if SeparatorAt(|d|, i) then [sep] else []) + [d[i]] + ReplaceFrom(d, sep, i + 1)
  }

  /** The replacement over the whole string. */
  function GroupThousands(d: string, sep: char): string {
    ReplaceFrom(d, sep, 0)
  }

  /** `parseMoney(value)`: the digits of `value`, every other character removed, in order. */
  function ParseMoney(value: string): (r: string)
    ensures AllDigits(r) && IsSubsequence(r, value)
    ensures |r| == Count(value, IsDigit)
    ensures AllDigits(value) ==> r == value
  {
    FilterLength(value, IsDigit);
    Digits(value)
  }

  /** `formatMoney(value)`: the digits of `value` with a `.` before every complete group of three
      counted from the right. Removing the dots gives `parseMoney(value)` back, and the pieces
      between the dots are the reference groups of those digits. */
  function FormatMoney(value: string): (r: string)
    ensures Filter(r, NotDot) == ParseMoney(value) && Digits(r) == ParseMoney(value)
    ensures Split(r, '.') == Groups(ParseMoney(value))
  {
    var d := Digits(value);
    ReplaceThenFilter(d, '.', 0, NotDot);
    ReplaceThenFilter(d, '.', 0, IsDigit);
    GroupThousandsIsJoin(d, '.');
    SplitUnique(GroupThousands(d, '.'), '.', Groups(d));
    GroupThousands(d, '.')
  }

  // The reference shape: groups of three from the right.

  /** The groups of a digit string: the leftmost has one to three digits, every other exactly three. */
  function Groups(d: string): (g: seq<string>)
    ensures |g| >= 1
    ensures |d| >= 1 ==> 1 <= |g[0]| <= 3
    ensures forall i :: 1 <= i < |g| ==> |g[i]| == 3
    ensures AllDigits(d) ==> forall i :: 0 <= i < |g| ==> AllDigits(g[i])
    decreases |d|
  {
    if |d| <= 3 then [d]
    else
      var p, q := d[..|d| - 3], d[|d| - 3..];
      assert AllDigits(d) ==> AllDigits(p) && AllDigits(q) by {
        assert forall i :: 0 <= i < |p| ==> p[i] == d[i];
        assert forall i :: 0 <= i < |q| ==> q[i] == d[|d| - 3 + i];
      }
      Groups(p) + [q]
  }

  lemma {:induction false} JoinAppend(parts: seq<string>, x: string, sep: char)
    requires |parts| >= 1
    ensures Join(parts + [x], sep) == Join(parts, sep) + [sep] + x
    decreases |parts|
  {
    if |parts| > 1 {
      assert (parts + [x])[1..] == parts[1..] + [x];
      JoinAppend(parts[1..], x, sep);
    } else {
      assert (parts + [x])[1..] == [x];
    }
  }

  /** No position of a string of at most three digits takes a separator. */
  lemma {:induction false} ReplaceShort(d: string, sep: char, i: nat)
    requires |d| <= 3 && i <= |d|
    ensures ReplaceFrom(d, sep, i) == d[i..]
    decreases |d| - i
  {
    if i < |d| {
      ReplaceShort(d, sep, i + 1);
      assert d[i..] == [d[i]] + d[i + 1..];
    }
  }

  /** Splitting off the last three digits: the positions of the front keep their separators, and
      one separator comes before the last group. */
  lemma {:induction false} ReplaceSplit(p: string, q: string, sep: char, i: nat)
    requires |q| == 3 && |p| >= 1 && i <= |p|
    ensures ReplaceFrom(p + q, sep, i) == ReplaceFrom(p, sep, i) + [sep] + q
    decreases |p| - i
  {
    var d := p + q;
    if i == |p| {
      LastGroup(d, sep);
      assert q == [d[|p|], d[|p| + 1], d[|p| + 2]];
    } else {
      ReplaceSplit(p, q, sep, i + 1);
      var h1, r1 := ReplaceStep(d, sep, i);
      var h2, r2 := ReplaceStep(p, sep, i);
      SeparatorShift(|p|, i);
      assert d[i] == p[i];
      assert h1 == h2;
    }
  }

  /** Three more digits on the right keep the separators of the earlier positions. */
  lemma SeparatorShift(n: nat, i: nat)
    requires i < n
    ensures SeparatorAt(n + 3, i) == SeparatorAt(n, i)
  {
  }

  /** The last three digits of a longer string are one group with a separator before it. */
  lemma LastGroup(d: string, sep: char)
    requires |d| >= 4
    ensures ReplaceFrom(d, sep, |d| - 3) == [sep, d[|d| - 3], d[|d| - 2], d[|d| - 1]]
  {
    LastTwo(d, sep);
    assert Rem3(3) == 0;
    var h, r := ReplaceStep(d, sep, |d| - 3);
  }

  /** The last two digits take no separator. */
  lemma LastTwo(d: string, sep: char)
    requires |d| >= 2
    ensures ReplaceFrom(d, sep, |d| - 2) == [d[|d| - 2], d[|d| - 1]]
  {
    assert Rem3(2) == 2 && Rem3(1) == 1;
    var h2, r2 := ReplaceStep(d, sep, |d| - 1);
    assert r2 == [];
    var h1, r1 := ReplaceStep(d, sep, |d| - 2);
  }

  /** The regular-expression replacement is the groups joined by the separator. */
  lemma {:induction false} GroupThousandsIsJoin(d: string, sep: char)
    ensures GroupThousands(d, sep) == Join(Groups(d), sep)
    decreases |d|
  {
    if |d| <= 3 {
      ReplaceShort(d, sep, 0);
    } else {
      var p, q := d[..|d| - 3], d[|d| - 3..];
      assert d == p + q;
      ReplaceSplit(p, q, sep, 0);
      GroupThousandsIsJoin(p, sep);
      JoinAppend(Groups(p), q, sep);
    }
  }

  /** Dropping the separators (or keeping only what `keep` allows, when it allows every character
      of `d` and not the separator) gives back the digits. */
  lemma {:induction false} ReplaceThenFilter(d: string, sep: char, i: nat, keep: char -> bool)
    requires i <= |d|
    requires forall j :: 0 <= j < |d| ==> keep(d[j])
    requires !keep(sep)
    ensures Filter(ReplaceFrom(d, sep, i), keep) == d[i..]
    decreases |d| - i
  {
    if i < |d| {
      var head, rest := ReplaceStepShape(d, sep, i);
      ReplaceThenFilter(d, sep, i + 1, keep);
      FilterConcat(head, rest, keep);
      HeadFilter(head, sep, d[i], keep);
      SliceCons(d, i);
    }
  }

  lemma ReplaceStepShape(d: string, sep: char, i: nat) returns (head: string, rest: string)
    requires i < |d|
    ensures head == [d[i]] || head == [sep] + [d[i]]
    ensures rest == ReplaceFrom(d, sep, i + 1)
    ensures ReplaceFrom(d, sep, i) == head + rest
  {
    head, rest := ReplaceStep(d, sep, i);
  }

  lemma SliceCons<T>(d: seq<T>, i: nat)
    requires i < |d|
    ensures d[i..] == [d[i]] + d[i + 1..]
  {
  }

  /** The replacement from `i` is the piece for position `i` followed by the replacement from `i + 1`. */
  lemma ReplaceStep(d: string, sep: char, i: nat) returns (head: string, rest: string)
    requires i < |d|
    ensures head == (if SeparatorAt(|d|, i) then [sep] else []) + [d[i]]
    ensures rest == ReplaceFrom(d, sep, i + 1)
    ensures ReplaceFrom(d, sep, i) == head + rest
  {
    head := (if SeparatorAt(|d|, i) then [sep] else []) + [d[i]];
    rest := ReplaceFrom(d, sep, i + 1);
  }

  /** One position of the replacement, an optional separator and the digit, filters to the digit. */
  lemma HeadFilter(head: string, sep: char, c: char, keep: char -> bool)
    requires head == [c] || head == [sep] + [c]
    requires keep(c) && !keep(sep)
    ensures Filter(head, keep) == [c]
  {
    if head != [c] {
      FilterConcat([sep], [c], keep);
    }
  }

  predicate NotDot(c: char) {
    c != '.'
  }

  /** `parseMoney` is idempotent. */
  lemma ParseMoneyIdempotent(value: string)
    ensures ParseMoney(ParseMoney(value)) == ParseMoney(value)
  {
  }

  /** `parseMoney` keeps every digit of the input: one occurrence in the output for each in the input. */
  lemma ParseMoneyKeepsDigits(value: string, i: nat)
    requires i < |value| && IsDigit(value[i])
    ensures value[i] in ParseMoney(value)
  {
    FilterMembers(value, IsDigit);
  }

  /** Deleting every `.` from `formatMoney(value)` gives `parseMoney(value)`. */
  lemma FormatMoneyRoundTrip(value: string)
    ensures Filter(FormatMoney(value), NotDot) == ParseMoney(value)
    ensures Digits(FormatMoney(value)) == ParseMoney(value)
  {
    var d := Digits(value);
    ReplaceThenFilter(d, '.', 0, NotDot);
    ReplaceThenFilter(d, '.', 0, IsDigit);
  }

  /** The pieces of `formatMoney(value)` between the dots are the groups of the digits: the first
      has one to three digits, each later one exactly three, so the output neither starts nor
      ends with a dot. Without digits the output is empty. */
  lemma FormatMoneyShape(value: string)
    ensures ParseMoney(value) == "" ==> FormatMoney(value) == ""
    ensures var parts := Split(FormatMoney(value), '.');
              && parts == Groups(ParseMoney(value))
              && (ParseMoney(value) != "" ==> 1 <= |parts[0]| <= 3)
              && (forall i :: 1 <= i < |parts| ==> |parts[i]| == 3)
              && (forall i :: 0 <= i < |parts| ==> AllDigits(parts[i]))
  {
    var d := Digits(value);
    var g := Groups(d);
    GroupThousandsIsJoin(d, '.');
    SplitUnique(FormatMoney(value), '.', g);
  }

  /** Formatting a formatted amount changes nothing. */
  lemma FormatMoneyIdempotent(value: string)
    ensures FormatMoney(FormatMoney(value)) == FormatMoney(value)
  {
    FormatMoneyRoundTrip(value);
  }

  /** Up to three digits are shown as they are; in particular `formatMoney("") == ""`. */
  lemma FormatMoneyShort(value: string)
    requires |ParseMoney(value)| <= 3
    ensures FormatMoney(value) == ParseMoney(value)
    ensures AllDigits(value) ==> FormatMoney(value) == value
  {
    ReplaceShort(Digits(value), '.', 0);
  }

  lemma FormatMoneyEmpty()
    ensures FormatMoney("") == ""
  {
    FormatMoneyShort("");
  }
}

/**
  The string operations the controller applies to the tool's output and to the
  arguments it builds: QString::split (keeping or skipping empty parts),
  QStringList::join, QString::number and QString::toLongLong.
*/
module Text {

  const Newline: string := "\n"
  const Tab: string := "\t"
  /** The separator the tool puts between the segments of a hierarchical name. */
  const NameDelimiter: string := "||"

  /** `sep` occurs in `s` starting at position `j`. */
  predicate OccursAt(s: string, sep: string, j: int)
  {
    0 <= j && j + |sep| <= |s| && s[j..j + |sep|] == sep
  }

  /** No character of `s` is a character of `sep`. */
  predicate Avoids(s: string, sep: string)
  {
    forall k :: 0 <= k < |s| ==> s[k] !in sep
  }

  /** The first occurrence of `sep` in `s` at or after `from`, or |s| when there is none. */
  function FindFrom(s: string, sep: string, from: nat): (i: nat)
    requires |sep| > 0 && from <= |s|
    ensures from <= i <= |s|
    ensures i < |s| ==> OccursAt(s, sep, i)
    ensures forall j :: from <= j < i ==> !OccursAt(s, sep, j)
    decreases |s| - from
  {
    if from + |sep| > |s| then |s|
    else if s[from..from + |sep|] == sep then from
    else FindFrom(s, sep, from + 1)
  }

  /** QString::split(sep) with empty parts kept: the pieces between the occurrences of `sep`, scanned left to right. */
  function Split(s: string, sep: string): (parts: seq<string>)
    requires |sep| > 0
    ensures |parts| >= 1
    decreases |s|
  {
    var i := FindFrom(s, sep, 0);
    if i == |s| then [s] else [s[..i]] + Split(s[i + |sep|..], sep)
  }

  /** The parts that are not empty, in order (QString::SkipEmptyParts). */
  function NonEmpty(parts: seq<string>): (r: seq<string>)
    ensures |r| <= |parts|
    ensures forall k :: 0 <= k < |r| ==> r[k] != "" && r[k] in parts
    ensures forall x :: x in parts && x != "" ==> x in r
  {
    if parts == [] then []
    else if parts[0] == "" then NonEmpty(parts[1..])
    else [parts[0]] + NonEmpty(parts[1..])
  }

  /** QString::split(sep, QString::SkipEmptyParts). */
  function SplitSkipEmpty(s: string, sep: string): seq<string>
    requires |sep| > 0
  {
    NonEmpty(Split(s, sep))
  }

  /** QStringList::join(sep). */
  function Join(parts: seq<string>, sep: string): string
  {
    if |parts| == 0 then ""
    else if |parts| == 1 then parts[0]
    else parts[0] + sep + Join(parts[1..], sep)
  }

  /** Joining the parts of a split gives back the text that was split. */
  lemma {:induction false} JoinSplit(s: string, sep: string)
    requires |sep| > 0
    ensures Join(Split(s, sep), sep) == s
    decreases |s|
  {
    var i := FindFrom(s, sep, 0);
    if i < |s| {
      var rest := s[i + |sep|..];
      var tail := Split(rest, sep);
      JoinSplit(rest, sep);
      var parts := [s[..i]] + tail;
      assert Split(s, sep) == parts;
      assert parts[1..] == tail;
      assert Join(parts, sep) == s[..i] + sep + Join(tail, sep);
      assert s == s[..i] + sep + rest by {
        assert s[i..i + |sep|] == sep;
      }
    }
  }

  /** A text none of whose characters belongs to `sep` contains no occurrence of `sep`. */
  lemma FindFromAvoiding(s: string, sep: string)
    requires |sep| > 0 && Avoids(s, sep)
    ensures FindFrom(s, sep, 0) == |s|
  {
    forall j | 0 <= j < |s| ensures !OccursAt(s, sep, j) {
      NotAtAvoidingChar(s, sep, j);
    }
  }

  /** An occurrence of `sep` cannot start at a character that `sep` does not contain. */
  lemma NotAtAvoidingChar(s: string, sep: string, j: int)
    requires |sep| > 0 && 0 <= j < |s| && s[j] !in sep
    ensures !OccursAt(s, sep, j)
  {
    if j + |sep| <= |s| {
      assert s[j..j + |sep|][0] == s[j];
    }
  }

  /** Splitting `a + sep + rest`, where `a` avoids the characters of `sep`, peels off `a`. */
  lemma SplitCons(a: string, sep: string, rest: string)
    requires |sep| > 0 && Avoids(a, sep)
    ensures Split(a + sep + rest, sep) == [a] + Split(rest, sep)
  {
    var s := a + sep + rest;
    assert OccursAt(s, sep, |a|) by {
      assert s[|a|..|a| + |sep|] == sep;
    }
    forall j | 0 <= j < |a| ensures !OccursAt(s, sep, j) {
      assert s[j] == a[j];
      NotAtAvoidingChar(s, sep, j);
    }
    var i := FindFrom(s, sep, 0);
    assert i == |a|;
    assert s[..i] == a;
    assert s[i + |sep|..] == rest;
  }

  /** Splitting a join gives back the parts, when no part uses a character of the separator. */
  lemma {:induction false} SplitJoin(parts: seq<string>, sep: string)
    requires |sep| > 0 && |parts| >= 1
    requires forall k :: 0 <= k < |parts| ==> Avoids(parts[k], sep)
    ensures Split(Join(parts, sep), sep) == parts
    decreases |parts|
  {
    if |parts| == 1 {
      FindFromAvoiding(parts[0], sep);
    } else {
      SplitJoin(parts[1..], sep);
      SplitCons(parts[0], sep, Join(parts[1..], sep));
      assert parts == [parts[0]] + parts[1..];
    }
  }

  /** Text made only of decimal digits. */
  predicate AllDigits(s: string)
  {
    forall k :: 0 <= k < |s| ==> '0' <= s[k] <= '9'
  }

  function DigitChar(d: nat): (c: char)
    requires d < 10
    ensures '0' <= c <= '9'
  {
    ['0', '1', '2', '3', '4', '5', '6', '7', '8', '9'][d]
  }

  /** The decimal digits of `n`, most significant first, without leading zeros. */
  function Digits(n: nat): (s: string)
    ensures |s| >= 1 && AllDigits(s)
  {
    if n < 10 then [DigitChar(n)] else Digits(n / 10) + [DigitChar(n % 10)]
  }

  /** QString::number(n): base 10, a leading '-' for a negative number. */
  function IntToString(n: int): string
  {
    if n < 0 then "-" + Digits(-n) else Digits(n)
  }

  /** The number a string of decimal digits denotes. */
  function DigitsValue(s: string): nat
    requires AllDigits(s)
  {
    if s == [] then 0 else DigitsValue(s[..|s| - 1]) * 10 + (s[|s| - 1] as int - '0' as int)
  }

  const MinLongLong: int := -0x8000_0000_0000_0000
  const MaxLongLong: int := 0x7FFF_FFFF_FFFF_FFFF

  /**
    QChar::isSpace for the characters a command's output can carry: space, tab,
    line feed, vertical tab, form feed, carriage return, NEL and no-break space.
  */
  predicate IsSpace(c: char)
  {
    c == ' ' || ('\t' <= c <= '\r') || c == '\U{85}' || c == '\U{A0}'
  }

  /** `s` without its leading white space. */
  function TrimLeading(s: string): (t: string)
    ensures |t| <= |s| && t == s[|s| - |t|..]
    ensures t != [] ==> !IsSpace(t[0])
    ensures forall k :: 0 <= k < |s| - |t| ==> IsSpace(s[k])
    decreases |s|
  {
    if s != [] && IsSpace(s[0]) then
      var t := TrimLeading(s[1..]);
      assert forall k :: 1 <= k < |s| - |t| ==> s[k] == s[1..][k - 1];
      t
    else s
  }

  /** `s` without its trailing white space. */
  function TrimTrailing(s: string): (t: string)
    ensures |t| <= |s| && t == s[..|t|]
    ensures t != [] ==> !IsSpace(t[|t| - 1])
    ensures forall k :: |t| <= k < |s| ==> IsSpace(s[k])
    decreases |s|
  {
    if s != [] && IsSpace(s[|s| - 1]) then
      var t := TrimTrailing(s[..|s| - 1]);
      assert forall k :: |t| <= k < |s| - 1 ==> s[k] == s[..|s| - 1][k];
      t
    else s
  }

  /** QString::trimmed: `s` without leading and trailing white space. */
  function Trimmed(s: string): string
  {
    TrimTrailing(TrimLeading(s))
  }

  /** An optional sign followed by at least one digit, within the 64-bit signed range; anything else is 0. */
  function ParseSignedDigits(s: string): (r: int)
    ensures MinLongLong <= r <= MaxLongLong
  {
    var negative := |s| > 0 && s[0] == '-';
    var body := if |s| > 0 && (s[0] == '-' || s[0] == '+') then s[1..] else s;
    if body == [] || !AllDigits(body) then 0
    else
      var v := if negative then -(DigitsValue(body) as int) else DigitsValue(body) as int;
      if MinLongLong <= v <= MaxLongLong then v else 0
  }

  /**
    QString::toLongLong in base 10: leading and trailing white space is ignored;
    what remains must be an optional sign and at least one digit, giving a value
    within the 64-bit signed range; anything else converts to 0.
  */
  function ParseLongLong(s: string): (r: int)
    ensures MinLongLong <= r <= MaxLongLong
  {
    ParseSignedDigits(Trimmed(s))
  }

  lemma {:induction false} DigitsValueOfDigits(n: nat)
    ensures DigitsValue(Digits(n)) == n
  {
    if n >= 10 {
      DigitsValueOfDigits(n / 10);
      var s := Digits(n);
      assert s[..|s| - 1] == Digits(n / 10);
      assert s[|s| - 1] == DigitChar(n % 10);
    }
  }

  /** A number's text has no white space at either end, so trimming leaves it as it is. */
  lemma TrimmedNumber(n: int)
    ensures Trimmed(IntToString(n)) == IntToString(n)
  {
    var s := IntToString(n);
    var d := if n < 0 then Digits(-n) else Digits(n);
    assert s[|s| - 1] == d[|d| - 1];
    assert !IsSpace(s[0]) && !IsSpace(s[|s| - 1]);
  }

  /** Converting a number to text and back gives the number (QString::number then toLongLong). */
  lemma ParseIntToString(n: int)
    requires MinLongLong <= n <= MaxLongLong
    ensures ParseLongLong(IntToString(n)) == n
  {
    var s := IntToString(n);
    TrimmedNumber(n);
    if n < 0 {
      var d := Digits(-n);
      DigitsValueOfDigits(-n);
      assert s == "-" + d;
      assert s[1..] == d;
    } else {
      var d := Digits(n);
      DigitsValueOfDigits(n);
      assert s == d;
      assert s[0] != '-' && s[0] != '+';
    }
  }

  /** White space around a number is ignored: a number padded with blanks, or ending a CRLF line, reads as that number. */
  lemma PaddedNumber(n: int, before: string, after: string)
    requires MinLongLong <= n <= MaxLongLong
    requires forall k :: 0 <= k < |before| ==> IsSpace(before[k])
    requires forall k :: 0 <= k < |after| ==> IsSpace(after[k])
    ensures ParseLongLong(before + IntToString(n) + after) == n
  {
    var s := IntToString(n);
    TrimmedNumber(n);
    TrimAround(before, s, after);
    ParseIntToString(n);
  }

  /** Trimming `before + s + after` leaves `s` when the padding is white space and `s` has none at its ends. */
  lemma {:induction false} TrimAround(before: string, s: string, after: string)
    requires forall k :: 0 <= k < |before| ==> IsSpace(before[k])
    requires forall k :: 0 <= k < |after| ==> IsSpace(after[k])
    requires s != [] && !IsSpace(s[0]) && !IsSpace(s[|s| - 1])
    ensures Trimmed(before + s + after) == s
  {
    TrimLeadingPrefix(before, s + after);
    assert before + s + after == before + (s + after);
    TrimTrailingSuffix(s, after);
  }

  lemma {:induction false} TrimLeadingPrefix(before: string, rest: string)
    requires forall k :: 0 <= k < |before| ==> IsSpace(before[k])
    requires rest != [] && !IsSpace(rest[0])
    ensures TrimLeading(before + rest) == rest
    decreases |before|
  {
    var s := before + rest;
    if before == [] {
      assert s == rest;
    } else {
      var tail := before[1..];
      assert s[0] == before[0] && IsSpace(s[0]);
      assert s[1..] == tail + rest;
      assert forall k :: 0 <= k < |tail| ==> IsSpace(tail[k]) by {
        forall k | 0 <= k < |tail| ensures IsSpace(tail[k]) {
          assert tail[k] == before[k + 1];
        }
      }
      TrimLeadingPrefix(tail, rest);
      assert TrimLeading(s) == TrimLeading(s[1..]);
    }
  }

  lemma {:induction false} TrimTrailingSuffix(s: string, after: string)
    requires forall k :: 0 <= k < |after| ==> IsSpace(after[k])
    requires s != [] && !IsSpace(s[|s| - 1])
    ensures TrimTrailing(s + after) == s
    decreases |after|
  {
    if after == [] {
      assert s + after == s;
    } else {
      var a := after[..|after| - 1];
      assert (s + after)[..|s + after| - 1] == s + a;
      assert (s + after)[|s + after| - 1] == after[|after| - 1];
      TrimTrailingSuffix(s, a);
    }
  }
}

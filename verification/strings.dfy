/** The string operations bot.js borrows from JavaScript: `toLowerCase`, the
    `\s` character class, `join`/`split` on a one-character separator, and the
    decimal rendering of a quantity inside a template literal. */
module Strings {

  /** ASCII upper-case letters, the only characters the model lower-cases. */
  predicate IsUpper(c: char) {
    'A' <= c <= 'Z'
  }

  /** One character of `toLowerCase`: an ASCII capital moves to its small
      letter, everything else stays. The result is never a capital. */
  function LowerChar(c: char): (r: char)
    ensures !IsUpper(r)
  {
    if IsUpper(c) then (c as int + 32) as char else c
  }

  /** `s.toLowerCase()`, restricted to ASCII letters. */
  function Lower(s: string): string {
    seq(|s|, i requires 0 <= i < |s| => LowerChar(s[i]))
  }

  /** Lower-casing twice is lower-casing once, so comparing a lower-cased
      name with an already lower-cased key is the same as comparing it with
      the key lower-cased again. */
  lemma LowerIdempotent(s: string)
    ensures Lower(Lower(s)) == Lower(s)
  {
    var l := Lower(s);
    forall i | 0 <= i < |s| ensures Lower(l)[i] == l[i] {
      assert l[i] == LowerChar(s[i]);
      assert !IsUpper(l[i]);
    }
  }

  /** The characters JavaScript's `\s` matches: the ASCII blanks, U+00A0,
      U+1680, U+2000..U+200A, the line and paragraph separators, U+202F,
      U+205F, U+3000 and the byte-order mark. */
  predicate IsSpace(c: char) {
    var k := c as int;
    || 9 <= k <= 13
    || k == 32 || k == 0xA0 || k == 0x1680
    || 0x2000 <= k <= 0x200A
    || k == 0x2028 || k == 0x2029 || k == 0x202F || k == 0x205F
    || k == 0x3000 || k == 0xFEFF
  }

  predicate HasSpace(s: string) {
    exists i :: 0 <= i < |s| && IsSpace(s[i])
  }

  /** Lower-casing never creates or removes a blank. */
  lemma LowerKeepsSpaces(s: string)
    ensures HasSpace(Lower(s)) <==> HasSpace(s)
  {
    forall i | 0 <= i < |s|
      ensures IsSpace(Lower(s)[i]) <==> IsSpace(s[i])
    {
      assert Lower(s)[i] == LowerChar(s[i]);
    }
  }

  /** Drops the blanks at the front of `s`. */
  function DropSpaces(s: string): (r: string)
    ensures |r| <= |s|
    ensures r == s[|s| - |r|..]
    ensures |r| > 0 ==> !IsSpace(r[0])
  {
    if |s| > 0 && IsSpace(s[0]) then DropSpaces(s[1..]) else s
  }

  /** `s.replace(/\s+/g, '_')`: every maximal run of blanks becomes one `_`. */
  function UnderscoreSpaces(s: string): (r: string)
    ensures !HasSpace(r)
    ensures |r| <= |s|
    decreases |s|
  {
    if |s| == 0 then ""
    else if IsSpace(s[0]) then "_" + UnderscoreSpaces(DropSpaces(s[1..]))
    else [s[0]] + UnderscoreSpaces(s[1..])
  }

  /** A blank-free string passes through the replacement unchanged. */
  lemma {:induction false} UnderscoreSpacesIdentity(s: string)
    requires !HasSpace(s)
    ensures UnderscoreSpaces(s) == s
    decreases |s|
  {
    if |s| > 0 {
      assert !IsSpace(s[0]);
      assert !HasSpace(s[1..]) by {
        forall i | 0 <= i < |s[1..]| ensures !IsSpace(s[1..][i]) {
          assert s[1..][i] == s[i + 1];
        }
      }
      UnderscoreSpacesIdentity(s[1..]);
      assert s == [s[0]] + s[1..];
    }
  }

  /** Every character of `w` is a blank. */
  predicate AllSpaces(w: string) {
    forall i :: 0 <= i < |w| ==> IsSpace(w[i])
  }

  /** Dropping the blanks in front of a run of blanks stops at the first
      character after the run. */
  lemma {:induction false} DropSpacesRun(w: string, b: string)
    requires AllSpaces(w)
    requires |b| == 0 || !IsSpace(b[0])
    ensures DropSpaces(w + b) == b
    decreases |w|
  {
    if |w| == 0 {
      assert w + b == b;
    } else {
      assert (w + b)[0] == w[0];
      assert (w + b)[1..] == w[1..] + b;
      assert AllSpaces(w[1..]) by {
        forall i | 0 <= i < |w[1..]| ensures IsSpace(w[1..][i]) { assert w[1..][i] == w[i + 1]; }
      }
      DropSpacesRun(w[1..], b);
    }
  }

  /** A blank-free prefix passes through the replacement unchanged. */
  lemma {:induction false} UnderscoreKeepsPrefix(a: string, t: string)
    requires !HasSpace(a)
    ensures UnderscoreSpaces(a + t) == a + UnderscoreSpaces(t)
    decreases |a|
  {
    if |a| > 0 {
      assert !IsSpace(a[0]);
      assert (a + t)[0] == a[0];
      assert (a + t)[1..] == a[1..] + t;
      assert !HasSpace(a[1..]) by {
        forall i | 0 <= i < |a[1..]| ensures !IsSpace(a[1..][i]) { assert a[1..][i] == a[i + 1]; }
      }
      UnderscoreKeepsPrefix(a[1..], t);
      assert a == [a[0]] + a[1..];
    } else {
      assert a + t == t;
    }
  }

  /** A string that starts with a run of blanks begins its replacement with
      one `_`, and the replacement carries on after the run. */
  lemma RunHead(w: string, b: string)
    requires |w| > 0 && AllSpaces(w)
    requires |b| == 0 || !IsSpace(b[0])
    ensures UnderscoreSpaces(w + b) == "_" + UnderscoreSpaces(b)
  {
    assert (w + b)[0] == w[0];
    assert (w + b)[1..] == w[1..] + b;
    assert AllSpaces(w[1..]) by {
      forall i | 0 <= i < |w[1..]| ensures IsSpace(w[1..][i]) { assert w[1..][i] == w[i + 1]; }
    }
    DropSpacesRun(w[1..], b);
  }

  /** A whole run of blanks, however long, becomes a single `_`, and the
      replacement carries on after the run. */
  lemma UnderscoreRun(a: string, w: string, b: string)
    requires !HasSpace(a)
    requires |w| > 0 && AllSpaces(w)
    requires |b| == 0 || !IsSpace(b[0])
    ensures UnderscoreSpaces(a + w + b) == a + "_" + UnderscoreSpaces(b)
  {
    assert a + w + b == a + (w + b);
    UnderscoreKeepsPrefix(a, w + b);
    RunHead(w, b);
  }

  /** `parts.join(sep)` for a one-character separator. */
  function Join(parts: seq<string>, sep: char): string
  {
    if |parts| == 0 then ""
    else if |parts| == 1 then parts[0]
    else parts[0] + [sep] + Join(parts[1..], sep)
  }

  /** `s.split(sep)` for a one-character separator: the pieces between
      separators, so the empty string splits into one empty piece. */
  function Split(s: string, sep: char): (parts: seq<string>)
    ensures |parts| >= 1
  {
    if |s| == 0 then [""]
    else
      var rest := Split(s[1..], sep);
      if s[0] == sep then [""] + rest
      else [[s[0]] + rest[0]] + rest[1..]
  }

  lemma {:induction false} SplitNoSeparator(a: string, sep: char)
    requires sep !in a
    ensures Split(a, sep) == [a]
  {
    if |a| > 0 {
      SplitNoSeparator(a[1..], sep);
      assert a == [a[0]] + a[1..];
    }
  }

  lemma {:induction false} SplitAtSeparator(a: string, sep: char, b: string)
    requires sep !in a
    ensures Split(a + [sep] + b, sep) == [a] + Split(b, sep)
  {
    if |a| == 0 {
      assert a + [sep] + b == [sep] + b;
      assert ([sep] + b)[1..] == b;
    } else {
      assert (a + [sep] + b)[1..] == a[1..] + [sep] + b;
      SplitAtSeparator(a[1..], sep, b);
      assert a == [a[0]] + a[1..];
    }
  }

  /** Splitting a join on its own separator gives the parts back, provided no
      part contains the separator. */
  lemma {:induction false} SplitJoin(parts: seq<string>, sep: char)
    requires |parts| >= 1
    requires forall k :: 0 <= k < |parts| ==> sep !in parts[k]
    ensures Split(Join(parts, sep), sep) == parts
  {
    if |parts| == 1 {
      SplitNoSeparator(parts[0], sep);
    } else {
      SplitJoin(parts[1..], sep);
      SplitAtSeparator(parts[0], sep, Join(parts[1..], sep));
      assert parts == [parts[0]] + parts[1..];
    }
  }

  /** Joining the pieces of a split on the same separator gives the string
      back. */
  lemma {:induction false} JoinSplit(s: string, sep: char)
    ensures Join(Split(s, sep), sep) == s
  {
    if |s| > 0 {
      JoinSplit(s[1..], sep);
      var rest := Split(s[1..], sep);
      if s[0] == sep {
        assert Split(s, sep) == [""] + rest;
        assert ([""] + rest)[1..] == rest;
      } else if |rest| == 1 {
        assert s == [s[0]] + s[1..];
      } else {
        var parts := Split(s, sep);
        assert parts[1..] == rest[1..];
        assert Join(rest, sep) == rest[0] + [sep] + Join(rest[1..], sep);
        assert s == [s[0]] + s[1..];
      }
    }
  }

  /** No piece of a split contains the separator. */
  lemma {:induction false} SplitPartsFree(s: string, sep: char)
    ensures forall k :: 0 <= k < |Split(s, sep)| ==> sep !in Split(s, sep)[k]
  {
    if |s| > 0 {
      SplitPartsFree(s[1..], sep);
      var rest := Split(s[1..], sep);
      var parts := Split(s, sep);
      forall k | 0 <= k < |parts| ensures sep !in parts[k] {
        if s[0] == sep {
          if k > 0 { assert parts[k] == rest[k - 1]; }
        } else if k == 0 {
          assert parts[0] == [s[0]] + rest[0];
        } else {
          assert parts[k] == rest[k];
        }
      }
    }
  }

  /** A join is empty exactly when it joins nothing or a single empty part. */
  lemma {:induction false} JoinEmpty(parts: seq<string>, sep: char)
    ensures Join(parts, sep) == "" <==> |parts| == 0 || (|parts| == 1 && parts[0] == "")
  {
    if |parts| > 1 {
      assert |Join(parts, sep)| >= 1;
    }
  }

  predicate IsDigit(c: char) {
    '0' <= c <= '9'
  }

  predicate AllDigits(s: string) {
    forall i :: 0 <= i < |s| ==> IsDigit(s[i])
  }

  function DigitChar(d: nat): (c: char)
    requires d < 10
    ensures IsDigit(c)
  {
    ('0' as int + d) as char
  }

  function DigitValue(c: char): (d: nat)
    requires IsDigit(c)
    ensures d < 10
  {
    c as int - '0' as int
  }

  /** The decimal text JavaScript produces for a whole quantity inside a
      template literal: digits only, never empty, no leading zero. */
  function Decimal(n: nat): (r: string)
    ensures |r| > 0 && AllDigits(r)
    ensures |r| == 1 || r[0] != '0'
  {
    if n < 10 then [DigitChar(n)] else Decimal(n / 10) + [DigitChar(n % 10)]
  }

  function ParseDecimal(s: string): nat
    requires AllDigits(s)
  {
    if |s| == 0 then 0 else ParseDecimal(s[..|s| - 1]) * 10 + DigitValue(s[|s| - 1])
  }

  /** Reading the rendered quantity back gives the quantity. */
  lemma {:induction false} DecimalRoundTrip(n: nat)
    ensures ParseDecimal(Decimal(n)) == n
  {
    if n >= 10 {
      DecimalRoundTrip(n / 10);
      var s := Decimal(n);
      assert s[..|s| - 1] == Decimal(n / 10);
    }
  }
}

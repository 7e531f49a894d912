/**
 * Byte strings and the handful of Ruby String, Array and Integer operations the
 * codecs are built from: `Array#join`, `String#split`, `String#strip`,
 * `Integer#to_s`, `String#to_i`, `Digest.hexencode` and the `n`/`v` directives
 * of `Array#pack`.
 */
module Wire {
  import opened Results

  /** One octet on the wire. */
  type byte = b: int | 0 <= b < 256

  /** A Ruby binary string. */
  type Bytes = seq<byte>

  /** The bytes of a protocol literal (every literal used here is ASCII). */
  function A(s: string): (r: Bytes)
    ensures |r| == |s|
  {
    seq(|s|, i requires 0 <= i < |s| => (s[i] as int) % 256)
  }

  const CRLF: Bytes := [13, 10]
  const SPACE: Bytes := [32]

  // ---------------------------------------------------------------------------
  // Array#join

  /** Concatenation of all parts. */
  function Concat(parts: seq<Bytes>): Bytes
  {
    if parts == [] then [] else parts[0] + Concat(parts[1..])
  }

  /** `parts.join(sep)`: the parts with `sep` between neighbours (a `nil` part is the empty string). */
  function Join(parts: seq<Bytes>, sep: Bytes): Bytes
  {
    if parts == [] then []
    else if |parts| == 1 then parts[0]
    else parts[0] + sep + Join(parts[1..], sep)
  }

  /** Every part followed by `sep`. */
  function Terminated(parts: seq<Bytes>, sep: Bytes): Bytes
  {
    if parts == [] then [] else parts[0] + sep + Terminated(parts[1..], sep)
  }

  /** Joining two non-empty lists puts exactly one separator between their joins. */
  lemma {:induction false} JoinAppend(a: seq<Bytes>, b: seq<Bytes>, sep: Bytes)
    requires |a| > 0 && |b| > 0
    ensures Join(a + b, sep) == Join(a, sep) + sep + Join(b, sep)
  {
    if |a| == 1 {
      assert a + b == [a[0]] + b;
    } else {
      calc {
        Join(a + b, sep);
        { assert (a + b)[1..] == a[1..] + b; }
        a[0] + sep + Join(a[1..] + b, sep);
        { JoinAppend(a[1..], b, sep); }
        a[0] + sep + (Join(a[1..], sep) + sep + Join(b, sep));
      }
    }
  }

  /** Appending a `nil` before joining terminates every part with the separator. */
  lemma {:induction false} JoinBlankEnd(parts: seq<Bytes>, sep: Bytes)
    ensures Join(parts + [[]], sep) == Terminated(parts, sep)
  {
    if parts != [] {
      assert (parts + [[]])[1..] == parts[1..] + [[]];
      JoinBlankEnd(parts[1..], sep);
    }
  }

  /** Terminating two lists one after the other terminates their concatenation. */
  lemma {:induction false} TerminatedAppend(a: seq<Bytes>, b: seq<Bytes>, sep: Bytes)
    ensures Terminated(a + b, sep) == Terminated(a, sep) + Terminated(b, sep)
  {
    if a == [] {
      assert a + b == b;
    } else {
      assert (a + b)[1..] == a[1..] + b;
      TerminatedAppend(a[1..], b, sep);
    }
  }

  // ---------------------------------------------------------------------------
  // String#split, String#strip

  /** The first position at or after `k` where `sep` occurs in `s`. */
  function Find(s: Bytes, sep: Bytes, k: nat): (r: Option<nat>)
    requires |sep| > 0 && k <= |s|
    ensures r.Some? ==> k <= r.value && r.value + |sep| <= |s| && s[r.value..r.value + |sep|] == sep
    decreases |s| - k
  {
    if k + |sep| > |s| then None
    else if s[k..k + |sep|] == sep then Some(k)
    else Find(s, sep, k + 1)
  }

  /** The pieces of `s` between leftmost non-overlapping occurrences of `sep`, empty pieces kept. */
  function SplitOn(s: Bytes, sep: Bytes): (r: seq<Bytes>)
    requires |sep| > 0
    ensures |r| > 0
    decreases |s|
  {
    match Find(s, sep, 0)
    case None => [s]
    case Some(k) => [s[..k]] + SplitOn(s[k + |sep|..], sep)
  }

  function DropTrailingEmpty(parts: seq<Bytes>): seq<Bytes>
  {
    if parts != [] && parts[|parts| - 1] == [] then DropTrailingEmpty(parts[..|parts| - 1]) else parts
  }

  /** `s.split(sep)`: trailing empty fields are removed, so the empty string splits into no fields. */
  function RubySplit(s: Bytes, sep: Bytes): seq<Bytes>
    requires |sep| > 0
  {
    DropTrailingEmpty(SplitOn(s, sep))
  }

  /** `s.split(sep, 2)`: at most two fields; the empty string gives none. */
  function SplitOnce(s: Bytes, sep: Bytes): (r: seq<Bytes>)
    requires |sep| > 0
    ensures |r| <= 2
  {
    if s == [] then []
    else match Find(s, sep, 0)
      case None => [s]
      case Some(k) => [s[..k], s[k + |sep|..]]
  }

  /** The lines that Ruby's `^` and `$` anchors delimit: the pieces between line feeds. */
  function LinesOf(s: Bytes): seq<Bytes>
  {
    SplitOn(s, [10])
  }

  /** `sep` occurs in `s` at position `j`. */
  predicate OccursAt(s: Bytes, sep: Bytes, j: nat)
  {
    j + |sep| <= |s| && s[j..j + |sep|] == sep
  }

  /** `Find` from 0 stops at `k` when `sep` first occurs there. */
  lemma FindFirst(s: Bytes, sep: Bytes, k: nat)
    requires |sep| > 0 && k + |sep| <= |s| && s[k..k + |sep|] == sep
    requires forall j :: 0 <= j < k ==> !OccursAt(s, sep, j)
    ensures Find(s, sep, 0) == Some(k)
  {
    FindFrom(s, sep, 0, k);
  }

  lemma {:induction false} FindFrom(s: Bytes, sep: Bytes, from: nat, k: nat)
    requires |sep| > 0 && from <= k && k + |sep| <= |s| && s[k..k + |sep|] == sep
    requires forall j :: from <= j < k ==> !OccursAt(s, sep, j)
    ensures Find(s, sep, from) == Some(k)
    decreases k - from
  {
    if from < k {
      assert !OccursAt(s, sep, from);
      FindFrom(s, sep, from + 1, k);
    }
  }

  /** A separator whose first byte does not occur is not found. */
  lemma {:induction false} FindAbsent(s: Bytes, sep: Bytes, from: nat)
    requires |sep| > 0 && from <= |s|
    requires forall i :: from <= i < |s| ==> s[i] != sep[0]
    ensures Find(s, sep, from) == None
    decreases |s| - from
  {
    if from + |sep| <= |s| {
      assert s[from..from + |sep|][0] == s[from];
      FindAbsent(s, sep, from + 1);
    }
  }

  /** The separator right after a piece free of its first byte ends that piece. */
  lemma FindAfter(x: Bytes, sep: Bytes, y: Bytes)
    requires |sep| > 0 && forall i :: 0 <= i < |x| ==> x[i] != sep[0]
    ensures Find(x + sep + y, sep, 0) == Some(|x|)
    ensures (x + sep + y)[..|x|] == x && (x + sep + y)[|x| + |sep|..] == y
  {
    var s := x + sep + y;
    forall j | 0 <= j < |x| ensures !OccursAt(s, sep, j) {
      assert s[j..j + |sep|][0] == x[j];
    }
    assert s[|x|..|x| + |sep|] == sep;
    FindFirst(s, sep, |x|);
  }

  /** Splitting `x + sep + y`, where `x` lacks the separator's first byte, gives `x` first. */
  lemma SplitOnAfter(x: Bytes, sep: Bytes, y: Bytes)
    requires |sep| > 0 && forall i :: 0 <= i < |x| ==> x[i] != sep[0]
    ensures SplitOn(x + sep + y, sep) == [x] + SplitOn(y, sep)
    ensures SplitOnce(x + sep + y, sep) == [x, y]
  {
    FindAfter(x, sep, y);
  }

  /** A string without the separator's first byte splits into itself. */
  lemma SplitOnAbsent(x: Bytes, sep: Bytes)
    requires |sep| > 0 && forall i :: 0 <= i < |x| ==> x[i] != sep[0]
    ensures SplitOn(x, sep) == [x]
    ensures x != [] ==> SplitOnce(x, sep) == [x]
  {
    FindAbsent(x, sep, 0);
  }

  /** Three pieces joined: the first, the separator, the second, the separator, the third. */
  lemma JoinThree(a: Bytes, b: Bytes, c: Bytes, sep: Bytes)
    ensures Join([a, b, c], sep) == a + sep + b + sep + c
  {
    JoinCons(a, [b, c], sep);
    assert [a] + [b, c] == [a, b, c];
    JoinCons(b, [c], sep);
    assert [b] + [c] == [b, c];
  }

  lemma JoinCons(a: Bytes, tail: seq<Bytes>, sep: Bytes)
    requires |tail| > 0
    ensures Join([a] + tail, sep) == a + sep + Join(tail, sep)
  {
    assert ([a] + tail)[1..] == tail;
  }

  /** Pieces free of the separator's first byte, joined with it, split back into those pieces. */
  lemma {:induction false} SplitOnOfJoin(parts: seq<Bytes>, sep: Bytes)
    requires |sep| > 0 && |parts| > 0
    requires forall k, i :: 0 <= k < |parts| && 0 <= i < |parts[k]| ==> parts[k][i] != sep[0]
    ensures SplitOn(Join(parts, sep), sep) == parts
  {
    if |parts| == 1 {
      SplitOnAbsent(parts[0], sep);
    } else {
      assert forall k :: 1 <= k < |parts| ==> parts[1..][k - 1] == parts[k];
      SplitOnOfJoin(parts[1..], sep);
      SplitOnAfter(parts[0], sep, Join(parts[1..], sep));
      assert parts == [parts[0]] + parts[1..];
    }
  }

  /** Joining the pieces of a split with the separator gives the string back. */
  lemma {:induction false} SplitOnJoin(s: Bytes, sep: Bytes)
    requires |sep| > 0
    ensures Join(SplitOn(s, sep), sep) == s
    decreases |s|
  {
    match Find(s, sep, 0)
    case None =>
    case Some(k) =>
      var rest := s[k + |sep|..];
      SplitOnJoin(rest, sep);
      JoinCons(s[..k], SplitOn(rest, sep), sep);
      assert s == s[..k] + sep + rest by {
        assert s == s[..k] + s[k..k + |sep|] + rest;
      }
  }

  /** The characters `String#strip` removes: NUL, tab, line feed, vertical tab, form feed, carriage return, space. */
  predicate IsStripSpace(b: byte)
  {
    b == 0 || b == 32 || 9 <= b <= 13
  }

  function TrimStart(s: Bytes): Bytes
  {
    if |s| > 0 && IsStripSpace(s[0]) then TrimStart(s[1..]) else s
  }

  function TrimEnd(s: Bytes): Bytes
  {
    if |s| > 0 && IsStripSpace(s[|s| - 1]) then TrimEnd(s[..|s| - 1]) else s
  }

  /** `s.strip` */
  function Strip(s: Bytes): Bytes
  {
    TrimEnd(TrimStart(s))
  }

  lemma {:induction false} TrimStartSpace(w: Bytes, s: Bytes)
    requires forall i :: 0 <= i < |w| ==> IsStripSpace(w[i])
    requires |s| > 0 && !IsStripSpace(s[0])
    ensures TrimStart(w + s) == s
  {
    if |w| > 0 {
      assert (w + s)[1..] == w[1..] + s;
      TrimStartSpace(w[1..], s);
    } else {
      assert w + s == s;
    }
  }

  lemma {:induction false} TrimEndSpace(s: Bytes, w: Bytes)
    requires forall i :: 0 <= i < |w| ==> IsStripSpace(w[i])
    requires |s| > 0 && !IsStripSpace(s[|s| - 1])
    ensures TrimEnd(s + w) == s
  {
    if |w| > 0 {
      assert (s + w)[..|s + w| - 1] == s + w[..|w| - 1];
      TrimEndSpace(s, w[..|w| - 1]);
    } else {
      assert s + w == s;
    }
  }

  /** `strip` removes exactly the whitespace around a text that starts and ends with something else. */
  lemma StripAround(w: Bytes, s: Bytes, w': Bytes)
    requires forall i :: 0 <= i < |w| ==> IsStripSpace(w[i])
    requires forall i :: 0 <= i < |w'| ==> IsStripSpace(w'[i])
    requires |s| > 0 && !IsStripSpace(s[0]) && !IsStripSpace(s[|s| - 1])
    ensures Strip(w + s + w') == s
  {
    assert w + s + w' == w + (s + w');
    TrimStartSpace(w, s + w');
    TrimEndSpace(s, w');
  }

  /** The whitespace of Ruby's `\s`: space, tab, line feed, vertical tab, form feed, carriage return. */
  predicate IsSpace(b: byte)
  {
    b == 32 || 9 <= b <= 13
  }

  /** ASCII lower-casing, as a case-insensitive regular expression compares letters. */
  function Lower(s: Bytes): (r: Bytes)
    ensures |r| == |s|
  {
    seq(|s|, i requires 0 <= i < |s| => if 65 <= s[i] <= 90 then s[i] + 32 else s[i])
  }

  // ---------------------------------------------------------------------------
  // Integers as decimal text

  predicate IsDigit(b: byte)
  {
    48 <= b <= 57
  }

  function DigitByte(d: int): byte
    requires 0 <= d < 10
  {
    48 + d
  }

  /** `n.to_s` for a natural number. */
  function NatToDecimal(n: nat): (r: Bytes)
    ensures |r| > 0
    ensures forall i :: 0 <= i < |r| ==> IsDigit(r[i])
    decreases n
  {
    if n < 10 then [DigitByte(n)] else NatToDecimal(n / 10) + [DigitByte(n % 10)]
  }

  /** `i.to_s` for any integer. */
  function IntToDecimal(i: int): (r: Bytes)
    ensures |r| > 0
  {
    if i < 0 then A("-") + NatToDecimal(-i) else NatToDecimal(i)
  }

  /** Accumulates a run of decimal digits, a single `_` being allowed between two digits. */
  function ScanDigits(s: Bytes, acc: int): int
    decreases |s|
  {
    if |s| > 0 && IsDigit(s[0]) then ScanDigits(s[1..], acc * 10 + (s[0] - 48))
    else if |s| > 1 && s[0] == 95 && IsDigit(s[1]) then ScanDigits(s[1..], acc)
    else acc
  }

  function SkipSpace(s: Bytes): Bytes
  {
    if |s| > 0 && IsSpace(s[0]) then SkipSpace(s[1..]) else s
  }

  /** The number after the sign: a `0d` or `0D` radix prefix is skipped first. */
  function UnsignedToI(t: Bytes): int
  {
    var u := if |t| > 1 && t[0] == 48 && (t[1] == 100 || t[1] == 68) then t[2..] else t;
    if |u| > 0 && IsDigit(u[0]) then ScanDigits(u, 0) else 0
  }

  /**
   * `s.to_i`: leading whitespace, an optional sign, an optional `0d` prefix,
   * then the longest run of digits with single `_` between them; text that
   * does not start with a number reads as 0.
   */
  function ToI(s: Bytes): int
  {
    var t := SkipSpace(s);
    if |t| > 0 && t[0] == 45 then -UnsignedToI(t[1..])
    else if |t| > 0 && t[0] == 43 then UnsignedToI(t[1..])
    else UnsignedToI(t)
  }

  lemma {:induction false} ScanDigitsSnoc(s: Bytes, d: byte, acc: int)
    requires forall i :: 0 <= i < |s| ==> IsDigit(s[i])
    requires IsDigit(d)
    ensures ScanDigits(s + [d], acc) == ScanDigits(s, acc) * 10 + (d - 48)
    decreases |s|
  {
    if s == [] {
      assert [d][1..] == [];
    } else {
      assert (s + [d])[1..] == s[1..] + [d];
      ScanDigitsSnoc(s[1..], d, acc * 10 + (s[0] - 48));
    }
  }

  lemma {:induction false} ScanNatToDecimal(n: nat)
    ensures ScanDigits(NatToDecimal(n), 0) == n
    decreases n
  {
    if n >= 10 {
      ScanNatToDecimal(n / 10);
      ScanDigitsSnoc(NatToDecimal(n / 10), DigitByte(n % 10), 0);
    }
  }

  /** `i.to_s.to_i == i`: the decimal text of an integer reads back as that integer. */
  lemma ToIOfDecimal(i: int)
    ensures ToI(IntToDecimal(i)) == i
  {
    if i < 0 {
      var t := IntToDecimal(i);
      assert t[0] == 45;
      assert t[1..] == NatToDecimal(-i);
      ScanNatToDecimal(-i);
    } else {
      ScanNatToDecimal(i);
    }
  }

  /**
   * `to_i` skips a `0d` or `0D` radix prefix after the sign: `"0d300".to_i`
   * is 300 and `"-0D5".to_i` is -5, while the prefix alone reads as 0.
   */
  lemma ToIOfPrefixedDecimal(i: int, upper: bool)
    ensures var p := if upper then A("0D") else A("0d");
            ToI((if i < 0 then A("-") else []) + p + NatToDecimal(if i < 0 then -i else i)) == i
            && ToI(p) == 0
  {
    var p := if upper then A("0D") else A("0d");
    var n: nat := if i < 0 then -i else i;
    var t := (if i < 0 then A("-") else []) + p + NatToDecimal(n);
    assert SkipSpace(p) == p;
    if i < 0 {
      assert t[0] == 45 && !IsSpace(t[0]);
      assert t[1..] == p + NatToDecimal(n);
      assert (p + NatToDecimal(n))[2..] == NatToDecimal(n);
    } else {
      assert t == p + NatToDecimal(n);
      assert t[0] == 48 && !IsSpace(t[0]);
      assert t[2..] == NatToDecimal(n);
    }
    ScanNatToDecimal(n);
  }

  // ---------------------------------------------------------------------------
  // Digest.hexencode

  function HexDigit(n: int): byte
    requires 0 <= n < 16
  {
    if n < 10 then 48 + n else 87 + n
  }

  /** `Digest.hexencode(b)`: two lower-case hexadecimal digits per byte. */
  function Hex(b: Bytes): (r: Bytes)
    ensures |r| == 2 * |b|
  {
    if b == [] then [] else [HexDigit(b[0] / 16), HexDigit(b[0] % 16)] + Hex(b[1..])
  }

  /** The value of one hexadecimal digit (either case). */
  function HexValue(c: byte): (v: int)
    ensures 0 <= v < 16
  {
    if 48 <= c <= 57 then c - 48
    else if 97 <= c <= 102 then c - 87
    else if 65 <= c <= 70 then c - 55
    else 0
  }

  /** Reference decoder of hexadecimal text, two digits per byte (as `[s].pack('H*')` reads it). */
  function UnHex(h: Bytes): Bytes
  {
    if |h| < 2 then (if |h| == 1 then [HexValue(h[0]) * 16] else [])
    else [HexValue(h[0]) * 16 + HexValue(h[1])] + UnHex(h[2..])
  }

  /** Hex encoding loses nothing: decoding it gives the original bytes back. */
  lemma {:induction false} UnHexOfHex(b: Bytes)
    ensures UnHex(Hex(b)) == b
  {
    if b != [] {
      var h := Hex(b);
      assert h[2..] == Hex(b[1..]);
      UnHexOfHex(b[1..]);
    }
  }

  // ---------------------------------------------------------------------------
  // Array#pack directives

  /** `[n].pack('n')`: the low 16 bits, most significant byte first. */
  function BE16(n: int): (r: Bytes)
    ensures |r| == 2
  {
    [(n % 65536) / 256, n % 256]
  }

  /** `[n].pack('v')`: the low 16 bits, least significant byte first. */
  function LE16(n: int): (r: Bytes)
    ensures |r| == 2
  {
    [n % 256, (n % 65536) / 256]
  }

  /** `[n].pack('C')`: the low 8 bits. */
  function U8(n: int): byte
  {
    n % 256
  }

  /** A count below 256 fits its `C` field unchanged. */
  lemma U8Small(n: int)
    requires 0 <= n < 256
    ensures U8(n) == n
  {
  }

  /** Reads a big-endian 16-bit field. */
  function ReadBE16(b: Bytes, at: nat): nat
    requires at + 2 <= |b|
  {
    (b[at] as int) * 256 + b[at + 1]
  }

  /** Reads a little-endian 16-bit field. */
  function ReadLE16(b: Bytes, at: nat): nat
    requires at + 2 <= |b|
  {
    (b[at + 1] as int) * 256 + b[at]
  }
}

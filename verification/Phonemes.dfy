/**
 * Ship names (pkg/phonemes/phonemes.go). A name is a suffix syllable alone, or hyphenated segments of one prefix and
 * one suffix, each segment a base-65536 digit. A Go string is modelled as one character per byte.
 */
module Phonemes {
  import opened Outcomes
  import opened Scrambler

  const TWO_64: int := 0x1_0000_0000_0000_0000

  datatype Syllables = Syllables(prefixes: seq<string>, suffixes: seq<string>)

  ghost predicate IsTable(table: seq<string>) {
    && |table| == 256
    && (forall i :: 0 <= i < 256 ==> |table[i]| == 3 && '-' !in table[i])
    && (forall i, j :: 0 <= i < j < 256 ==> table[i] != table[j])
  }

  ghost predicate Valid(t: Syllables) {
    IsTable(t.prefixes) && IsTable(t.suffixes)
  }

  // ---------------------------------------------------------------- lookup maps

  /** Position of the last occurrence of `s`: what filling a map in index order leaves behind. */
  ghost function Find(table: seq<string>, s: string): Option<nat> {
    if table == [] then None
    else if table[|table| - 1] == s then Some(|table| - 1)
    else Find(table[..|table| - 1], s)
  }

  ghost predicate IsLookup(table: seq<string>, lookup: map<string, nat>) {
    && (forall s :: s in lookup <==> Find(table, s).Some?)
    && (forall s :: s in lookup ==> Find(table, s) == Some(lookup[s]))
  }

  method BuildLookup(table: seq<string>) returns (lookup: map<string, nat>)
    ensures IsLookup(table, lookup)
  {
    lookup := map[];
    for i := 0 to |table|
      invariant IsLookup(table[..i], lookup)
    {
      assert table[..i + 1][..i] == table[..i];
      lookup := lookup[table[i] := i];
    }
    assert table[..|table|] == table;
  }

  lemma {:induction false} FindSound(table: seq<string>, s: string)
    ensures Find(table, s).Some? ==> Find(table, s).value < |table| && table[Find(table, s).value] == s
  {
    if table != [] {
      FindSound(table[..|table| - 1], s);
    }
  }

  lemma {:induction false} FindComplete(table: seq<string>, i: nat)
    requires i < |table| && forall k :: i < k < |table| ==> table[k] != table[i]
    ensures Find(table, table[i]) == Some(i)
  {
    if i < |table| - 1 {
      FindComplete(table[..|table| - 1], i);
    }
  }

  // ---------------------------------------------------------------- hyphenation

  function LastHyphen(s: string): (k: nat)
    requires '-' in s
    ensures k < |s| && s[k] == '-' && '-' !in s[k + 1..]
  {
    if s[|s| - 1] == '-' then |s| - 1
    else
      var k := LastHyphen(s[..|s| - 1]);
      assert s[k + 1..] == s[..|s| - 1][k + 1..] + [s[|s| - 1]];
      k
  }

  lemma {:induction false} LastHyphenUnique(s: string, k: nat)
    requires k < |s| && s[k] == '-' && '-' !in s[k + 1..]
    ensures LastHyphen(s) == k
  {
    var n := |s| - 1;
    assert forall j :: k < j < |s| ==> s[j] == s[k + 1..][j - k - 1];
    if s[n] != '-' {
      assert s[k + 1..] == s[..n][k + 1..] + [s[n]];
      LastHyphenUnique(s[..n], k);
    }
  }

  /** `strings.Split(s, "-")`. */
  function Split(s: string): (segments: seq<string>)
    ensures segments != []
    decreases |s|
  {
    if '-' !in s then [s]
    else
      var k := LastHyphen(s);
      Split(s[..k]) + [s[k + 1..]]
  }

  ghost function Join(segments: seq<string>): string
    requires segments != []
  {
    var n := |segments| - 1;
    if n == 0 then segments[0] else Join(segments[..n]) + "-" + segments[n]
  }

  lemma {:induction false} JoinSplit(s: string)
    ensures Join(Split(s)) == s
    decreases |s|
  {
    if '-' in s {
      var k := LastHyphen(s);
      JoinSplit(s[..k]);
      assert Split(s)[..|Split(s)| - 1] == Split(s[..k]);
      assert s == s[..k] + "-" + s[k + 1..];
    }
  }

  lemma SplitLast(head: string, last: string)
    requires '-' !in last
    ensures Split(head + "-" + last) == Split(head) + [last]
  {
    var s := head + "-" + last;
    assert s[|head|] == '-' && s[|head| + 1..] == last && s[..|head|] == head;
    LastHyphenUnique(s, |head|);
  }

  lemma {:induction false} SplitJoin(segments: seq<string>)
    requires segments != [] && forall i :: 0 <= i < |segments| ==> '-' !in segments[i]
    ensures Split(Join(segments)) == segments
  {
    var n := |segments| - 1;
    if n > 0 {
      SplitJoin(segments[..n]);
      SplitLast(Join(segments[..n]), segments[n]);
      assert segments == segments[..n] + [segments[n]];
    }
  }

  // ---------------------------------------------------------------- printing

  ghost function SegmentName(t: Syllables, d: nat): string
    requires Valid(t) && d < 0x1_0000
  {
    t.prefixes[d / 0x100] + t.suffixes[d % 0x100]
  }

  ghost function IntToPhonemeNonGalaxy(t: Syllables, i: nat): string
    requires Valid(t)
  {
    if i < 0x1_0000 then t.prefixes[i / 0x100] + t.suffixes[i % 0x100]
    else IntToPhonemeNonGalaxy(t, i / 0x1_0000) + "-" + IntToPhonemeNonGalaxy(t, i % 0x1_0000)
  }

  ghost function IntToPhonemeQ(t: Syllables, i: nat): string
    requires Valid(t)
  {
    if i < 0x100 then t.suffixes[i] else IntToPhonemeNonGalaxy(t, i)
  }

  // ---------------------------------------------------------------- parsing

  /** The digit a segment denotes, if it is a known prefix followed by a known suffix. */
  ghost function Segment(t: Syllables, segment: string): (d: Option<nat>)
    requires Valid(t)
    ensures d.Some? ==> d.value < 0x1_0000
  {
    if |segment| != 6 then None
    else
      FindSound(t.prefixes, segment[..3]);
      FindSound(t.suffixes, segment[3..]);
      match (Find(t.prefixes, segment[..3]), Find(t.suffixes, segment[3..]))
      case (Some(p), Some(q)) => Some(p * 0x100 + q)
      case _ => None
  }

  ghost predicate AllSegments(t: Syllables, segments: seq<string>)
    requires Valid(t)
  {
    forall i :: 0 <= i < |segments| ==> Segment(t, segments[i]).Some?
  }

  ghost predicate Accepts(t: Syllables, s: string)
    requires Valid(t)
  {
    if |s| == 3 then Find(t.suffixes, s).Some? else AllSegments(t, Split(s))
  }

  /** The number that a list of segments writes in base 65536, of any length. */
  ghost function Base65536(t: Syllables, segments: seq<string>): nat
    requires Valid(t) && AllSegments(t, segments)
  {
    var n := |segments| - 1;
    if n < 0 then 0 else Base65536(t, segments[..n]) * 0x1_0000 + Segment(t, segments[n]).value
  }

  /** What the parser makes of `s`: a suffix's index, or the base-65536 number cut to 64 bits. */
  ghost function ParsedQ(t: Syllables, s: string): (v: Option<nat>)
    requires Valid(t)
    ensures v.Some? ==> v.value < TWO_64
  {
    if !Accepts(t, s) then None
    else if |s| == 3 then FindSound(t.suffixes, s); Find(t.suffixes, s)
    else Some(Base65536(t, Split(s)) % TWO_64)
  }

  method PhonemeQToInt(ghost t: Syllables, prefixLookup: map<string, nat>, suffixLookup: map<string, nat>, s: string)
    returns (value: dword, ok: bool)
    requires Valid(t) && IsLookup(t.prefixes, prefixLookup) && IsLookup(t.suffixes, suffixLookup)
    ensures ok <==> Accepts(t, s)
    ensures ok ==> ParsedQ(t, s) == Some(value as nat)
  {
    if |s| == 3 {
      if s !in suffixLookup {
        return 0, false;
      }
      FindSound(t.suffixes, s);
      return suffixLookup[s] as dword, true;
    }
    var segments := Split(s);
    value := 0;
    for k := 0 to |segments|
      invariant AllSegments(t, segments[..k])
      invariant value as int == Base65536(t, segments[..k]) % TWO_64
    {
      hide Base65536, Split, Find;
      var segment := segments[k];
      if |segment| != 6 {
        return 0, false;
      }
      value := value % 0x1_0000_0000_0000 * 0x1_0000; // value <<= 16
      var prefix, suffix := segment[..3], segment[3..];
      if prefix !in prefixLookup {
        return 0, false;
      }
      FindSound(t.prefixes, prefix);
      var p := prefixLookup[prefix] as dword;
      value := value + p * 0x100;
      if suffix !in suffixLookup {
        return 0, false;
      }
      FindSound(t.suffixes, suffix);
      var q := suffixLookup[suffix] as dword;
      value := value + q;
      assert Segment(t, segment) == Some((p * 0x100 + q) as nat);
      NextSegment(t, segments, k);
      ShiftIn(Base65536(t, segments[..k]), Segment(t, segment).value);
    }
    assert segments[..|segments|] == segments;
    return value, true;
  }

  lemma NextSegment(t: Syllables, segments: seq<string>, k: nat)
    requires Valid(t) && k < |segments| && AllSegments(t, segments[..k]) && Segment(t, segments[k]).Some?
    ensures AllSegments(t, segments[..k + 1])
    ensures Base65536(t, segments[..k + 1])
         == Base65536(t, segments[..k]) * 0x1_0000 + Segment(t, segments[k]).value
  {
    assert segments[..k + 1][..k] == segments[..k];
  }

  lemma Remainder64(x: int, q: int, c: int)
    requires x == q * TWO_64 + c && 0 <= c < TWO_64
    ensures x % TWO_64 == c
  {
  }

  lemma Remainder48(x: int, q: int, c: int)
    requires x == q * 0x1_0000_0000_0000 + c && 0 <= c < 0x1_0000_0000_0000
    ensures x % 0x1_0000_0000_0000 == c
  {
  }

  /** Shifting a 64-bit accumulator and adding a digit is the same shift on the unbounded number. */
  lemma ShiftIn(base: nat, d: nat)
    requires d < 0x1_0000
    ensures (base * 0x1_0000 + d) % TWO_64 == base % TWO_64 % 0x1_0000_0000_0000 * 0x1_0000 + d
  {
    var q, y := base / 0x1_0000_0000_0000, base % 0x1_0000_0000_0000;
    var k := base / TWO_64;
    Remainder48(base % TWO_64, q - k * 0x1_0000, y);
    Remainder64(base * 0x1_0000 + d, q, y * 0x1_0000 + d);
  }

  // ---------------------------------------------------------------- printing against parsing

  lemma SegmentOfName(t: Syllables, d: nat)
    requires Valid(t) && d < 0x1_0000
    ensures |SegmentName(t, d)| == 6 && '-' !in SegmentName(t, d)
    ensures SegmentName(t, d)[..3] == t.prefixes[d / 0x100]
    ensures Find(t.prefixes, SegmentName(t, d)[..3]) == Some(d / 0x100)
    ensures Segment(t, SegmentName(t, d)) == Some(d)
  {
    var s := SegmentName(t, d);
    assert s[..3] == t.prefixes[d / 0x100] && s[3..] == t.suffixes[d % 0x100];
    FindComplete(t.prefixes, d / 0x100);
    FindComplete(t.suffixes, d % 0x100);
  }

  lemma NameOfSegment(t: Syllables, segment: string)
    requires Valid(t) && Segment(t, segment).Some?
    ensures SegmentName(t, Segment(t, segment).value) == segment
  {
    FindSound(t.prefixes, segment[..3]);
    FindSound(t.suffixes, segment[3..]);
    assert segment == segment[..3] + segment[3..];
  }

  /** The segments printed for `i`, most significant first. */
  ghost function Printed(t: Syllables, i: nat): (segments: seq<string>)
    requires Valid(t)
    ensures segments != []
  {
    if i < 0x1_0000 then [SegmentName(t, i)]
    else Printed(t, i / 0x1_0000) + [SegmentName(t, i % 0x1_0000)]
  }

  /** What printing writes: hyphen-free segments that read back as the number, the first one not zero. */
  lemma {:induction false} PrintedSegments(t: Syllables, i: nat)
    requires Valid(t)
    ensures IntToPhonemeNonGalaxy(t, i) == Join(Printed(t, i))
    ensures forall k :: 0 <= k < |Printed(t, i)| ==> '-' !in Printed(t, i)[k]
    ensures AllSegments(t, Printed(t, i)) && Base65536(t, Printed(t, i)) == i
    ensures |IntToPhonemeNonGalaxy(t, i)| >= 6
    ensures i >= 0x1_0000 ==> Segment(t, Printed(t, i)[0]) != Some(0)
    ensures i > 0 ==> Segment(t, Printed(t, i)[0]) != Some(0)
  {
    var p := Printed(t, i);
    if i < 0x1_0000 {
      SegmentOfName(t, i);
      assert p[..0] == [] && Base65536(t, []) == 0;
    } else {
      PrintedSegments(t, i / 0x1_0000);
      SegmentOfName(t, i % 0x1_0000);
      assert p[..|p| - 1] == Printed(t, i / 0x1_0000);
    }
  }

  /** A number below 2^64 is printed with at most four segments. */
  lemma PrintedLength(t: Syllables, i: nat)
    requires Valid(t)
    ensures i < TWO_64 ==> |Printed(t, i)| <= 4
    ensures i >= 0x1_0000 ==> |Printed(t, i)| >= 2
  {
    if i < TWO_64 {
      var a := i / 0x1_0000;
      var b := a / 0x1_0000;
      var c := b / 0x1_0000;
      assert c < 0x1_0000;
      assert i >= 0x1_0000 ==> |Printed(t, i)| == |Printed(t, a)| + 1;
      assert a >= 0x1_0000 ==> |Printed(t, a)| == |Printed(t, b)| + 1;
      assert b >= 0x1_0000 ==> |Printed(t, b)| == |Printed(t, c)| + 1;
    }
  }

  lemma SplitPrinted(t: Syllables, i: nat)
    requires Valid(t)
    ensures Split(IntToPhonemeNonGalaxy(t, i)) == Printed(t, i)
  {
    PrintedSegments(t, i);
    SplitJoin(Printed(t, i));
  }

  lemma ParsedBySegments(t: Syllables, s: string, segments: seq<string>)
    requires Valid(t) && |s| != 3 && Split(s) == segments && AllSegments(t, segments)
    requires Base65536(t, segments) < TWO_64
    ensures ParsedQ(t, s) == Some(Base65536(t, segments))
  {
  }

  /** Every 64-bit number survives printing and parsing. */
  lemma QRoundTrip(t: Syllables, i: nat)
    requires Valid(t) && i < TWO_64
    ensures ParsedQ(t, IntToPhonemeQ(t, i)) == Some(i)
  {
    if i < 0x100 {
      FindComplete(t.suffixes, i);
    } else {
      PrintedSegments(t, i);
      SplitPrinted(t, i);
      ParsedBySegments(t, IntToPhonemeNonGalaxy(t, i), Printed(t, i));
    }
  }

  // ---------------------------------------------------------------- canonical names

  /** A lone suffix; a lone segment with a prefix other than the first; two to four segments, the first not zero. */
  ghost predicate Canonical(t: Syllables, s: string)
    requires Valid(t)
  {
    var segments := Split(s);
    || |s| == 3
    || (|segments| == 1 && |s| == 6 && Find(t.prefixes, s[..3]) != Some(0))
    || (2 <= |segments| <= 4 && Segment(t, segments[0]) != Some(0))
  }

  lemma {:induction false} Reprint(t: Syllables, segments: seq<string>)
    requires Valid(t) && segments != [] && AllSegments(t, segments)
    requires |segments| == 1 || Segment(t, segments[0]) != Some(0)
    ensures IntToPhonemeNonGalaxy(t, Base65536(t, segments)) == Join(segments)
    ensures Segment(t, segments[0]) != Some(0) ==> Base65536(t, segments) >= 1
    ensures |segments| > 1 ==> Base65536(t, segments) >= 0x1_0000
  {
    var n := |segments| - 1;
    NameOfSegment(t, segments[n]);
    if n == 0 {
      assert Base65536(t, segments[..0]) == 0;
    } else {
      Reprint(t, segments[..n]);
      var high, d := Base65536(t, segments[..n]), Segment(t, segments[n]).value;
      var v := Base65536(t, segments);
      assert v / 0x1_0000 == high && v % 0x1_0000 == d;
    }
  }

  ghost function Power65536(n: nat): nat {
    if n == 0 then 1 else Power65536(n - 1) * 0x1_0000
  }

  lemma {:induction false} BaseBound(t: Syllables, segments: seq<string>)
    requires Valid(t) && AllSegments(t, segments)
    ensures Base65536(t, segments) < Power65536(|segments|)
  {
    if segments != [] {
      BaseBound(t, segments[..|segments| - 1]);
    }
  }

  lemma FourDigits(n: nat)
    requires n <= 4
    ensures Power65536(n) <= TWO_64
  {
    assert Power65536(1) == 0x1_0000;
    assert Power65536(2) == 0x1_0000_0000;
    assert Power65536(3) == 0x1_0000_0000_0000;
    assert Power65536(4) == TWO_64;
    assert n == 0 || n == 1 || n == 2 || n == 3 || n == 4;
  }

  lemma PrintedIsCanonical(t: Syllables, i: nat)
    requires Valid(t) && i < TWO_64
    ensures Canonical(t, IntToPhonemeQ(t, i))
  {
    if i >= 0x100 {
      SplitPrinted(t, i);
      PrintedSegments(t, i);
      PrintedLength(t, i);
      if i < 0x1_0000 {
        SegmentOfName(t, i);
      }
    }
  }

  /** Exactly the canonical spellings print back as themselves. */
  lemma CanonicalNames(t: Syllables, s: string)
    requires Valid(t) && Accepts(t, s)
    ensures IntToPhonemeQ(t, ParsedQ(t, s).value) == s <==> Canonical(t, s)
  {
    var v := ParsedQ(t, s).value;
    PrintedIsCanonical(t, v);
    if |s| == 3 {
      FindSound(t.suffixes, s);
    } else if Canonical(t, s) {
      var segments := Split(s);
      JoinSplit(s);
      BaseBound(t, segments);
      FourDigits(|segments|);
      ParsedBySegments(t, s, segments);
      Reprint(t, segments);
      if |segments| == 1 {
        assert segments[0] == s && segments[..0] == [];
        assert v == Segment(t, s).value;
      }
    }
  }

  // ---------------------------------------------------------------- names of numbers

  /** Only the low 32 bits of a number are scrambled. */
  ghost function ScrambledLow(prf: Prf, i: dword): (j: dword)
    ensures j / 0x1_0000_0000 == i / 0x1_0000_0000
  {
    i / 0x1_0000_0000 * 0x1_0000_0000 + Scrambled(prf, (i % 0x1_0000_0000) as word) as dword
  }

  ghost function UnscrambledLow(prf: Prf, i: dword): (j: dword)
    ensures j / 0x1_0000_0000 == i / 0x1_0000_0000
  {
    i / 0x1_0000_0000 * 0x1_0000_0000 + Unscrambled(prf, (i % 0x1_0000_0000) as word) as dword
  }

  ghost function NameOf(prf: Prf, t: Syllables, i: dword): string
    requires Valid(t)
  {
    IntToPhonemeQ(t, ScrambledLow(prf, i) as nat)
  }

  ghost function NumberOf(prf: Prf, t: Syllables, s: string): Option<dword>
    requires Valid(t)
  {
    match ParsedQ(t, s)
    case None => None
    case Some(v) => Some(UnscrambledLow(prf, v as dword))
  }

  method PrintNonGalaxy(t: Syllables, i: dword) returns (s: string)
    requires Valid(t)
    ensures s == IntToPhonemeNonGalaxy(t, i as nat)
  {
    if i < 0x1_0000 {
      return t.prefixes[i / 0x100] + t.suffixes[i % 0x100];
    }
    var high := PrintNonGalaxy(t, i / 0x1_0000);
    var low := PrintNonGalaxy(t, i % 0x1_0000);
    return high + "-" + low;
  }

  method PrintQ(t: Syllables, i: dword) returns (s: string)
    requires Valid(t)
    ensures s == IntToPhonemeQ(t, i as nat)
  {
    if i < 0x100 {
      return t.suffixes[i];
    }
    s := PrintNonGalaxy(t, i);
  }

  method IntToPhoneme(prf: Prf, t: Syllables, i: dword) returns (s: string)
    requires Valid(t)
    ensures s == NameOf(prf, t, i)
  {
    if i < 0x1_0000_0000 {
      assert i / 0x1_0000_0000 == 0 && i % 0x1_0000_0000 == i;
      var c := Scramble(prf, i as word);
      assert c as dword == ScrambledLow(prf, i);
      s := PrintQ(t, c as dword);
    } else {
      var c := Scramble(prf, (i % 0x1_0000_0000) as word);
      var j := i / 0x1_0000_0000 * 0x1_0000_0000 + c as dword;
      assert j == ScrambledLow(prf, i);
      s := PrintQ(t, j);
    }
  }

  method PhonemeToInt(prf: Prf, ghost t: Syllables, prefixLookup: map<string, nat>, suffixLookup: map<string, nat>,
                      s: string)
    returns (value: dword, ok: bool)
    requires Valid(t) && IsLookup(t.prefixes, prefixLookup) && IsLookup(t.suffixes, suffixLookup)
    ensures ok <==> NumberOf(prf, t, s).Some?
    ensures ok ==> NumberOf(prf, t, s) == Some(value)
  {
    var i, accepted := PhonemeQToInt(t, prefixLookup, suffixLookup, s);
    if !accepted {
      return 0, false;
    }
    assert NumberOf(prf, t, s) == Some(UnscrambledLow(prf, i));
    if i < 0x1_0000_0000 {
      assert i / 0x1_0000_0000 == 0 && i % 0x1_0000_0000 == i;
      var c := Unscramble(prf, i as word);
      value := c as dword;
    } else {
      var c := Unscramble(prf, (i % 0x1_0000_0000) as word);
      value := i / 0x1_0000_0000 * 0x1_0000_0000 + c as dword;
    }
    assert value == UnscrambledLow(prf, i);
    return value, true;
  }

  /** Every 64-bit number is recovered from its name, through every name form, whatever the hash. */
  lemma NameRoundTrip(prf: Prf, t: Syllables, i: dword)
    requires Valid(t)
    ensures NumberOf(prf, t, NameOf(prf, t, i)) == Some(i)
  {
    var j := ScrambledLow(prf, i);
    QRoundTrip(t, j as nat);
    LowRoundTrip(prf, i);
    hide ScrambledLow, UnscrambledLow, ParsedQ, IntToPhonemeQ, Valid;
  }

  /** Which number a name spells: from 0x10000 up the low 32 bits are mixed, and everything else is left alone. */
  lemma NameSpells(prf: Prf, t: Syllables, i: dword)
    requires Valid(t)
    ensures var low := i as int % 0x1_0000_0000;
            var mixed := if low < 0x1_0000 then low else 0x1_0000 + Mixed(prf, low - 0x1_0000);
            NameOf(prf, t, i) == IntToPhonemeQ(t, i as int - low + mixed)
  {
    var low := (i % 0x1_0000_0000) as word;
    assert i as int - low as int == (i / 0x1_0000_0000 * 0x1_0000_0000) as int;
    hide IntToPhonemeQ;
  }

  /** The spelling of galaxies, stars and planets. */
  lemma Spelling(t: Syllables, i: nat)
    requires Valid(t)
    ensures i < 0x100 ==> IntToPhonemeQ(t, i) == t.suffixes[i]
    ensures 0x100 <= i < 0x1_0000 ==> IntToPhonemeQ(t, i) == t.prefixes[i / 0x100] + t.suffixes[i % 0x100]
    ensures 0x1_0000 <= i < 0x1_0000_0000 ==>
              var high, low := i / 0x1_0000, i % 0x1_0000;
              IntToPhonemeQ(t, i) == (t.prefixes[high / 0x100] + t.suffixes[high % 0x100]) + "-"
                                     + (t.prefixes[low / 0x100] + t.suffixes[low % 0x100])
  {
    if 0x1_0000 <= i < 0x1_0000_0000 {
      OneSegment(t, i / 0x1_0000);
      OneSegment(t, i % 0x1_0000);
    }
  }

  lemma OneSegment(t: Syllables, i: nat)
    requires Valid(t) && i < 0x1_0000
    ensures IntToPhonemeNonGalaxy(t, i) == t.prefixes[i / 0x100] + t.suffixes[i % 0x100]
  {
  }

  lemma LowRoundTrip(prf: Prf, i: dword)
    ensures UnscrambledLow(prf, ScrambledLow(prf, i)) == i
  {
    var high, low := i / 0x1_0000_0000, i % 0x1_0000_0000;
    var c := Scrambled(prf, low as word);
    ScrambleIsPermutation(prf, low as word);
    hide Scrambled, Unscrambled;
    HighLow(high as int, c as int);
  }

  lemma HighLow(high: int, low: int)
    requires 0 <= low < 0x1_0000_0000
    ensures (high * 0x1_0000_0000 + low) / 0x1_0000_0000 == high
    ensures (high * 0x1_0000_0000 + low) % 0x1_0000_0000 == low
  {
  }
}

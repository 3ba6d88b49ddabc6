/** Base64 with the two alphabets of RFC 4648 (sections 4 and 5), as Go's decoder accepts it, and the
    decode-with-fallback of `TuneInPodcastInfo` and `PlayCustomStream`. */
module Base64 {
  import opened Common

  type Sextet = x: int | 0 <= x < 64

  datatype Alphabet = Standard | UrlSafe

  function Letter(a: Alphabet, v: Sextet): char {
    if v < 26 then 'A' + v as char
    else if v < 52 then 'a' + (v - 26) as char
    else if v < 62 then '0' + (v - 52) as char
    else if v == 62 then (if a == Standard then '+' else '-')
    else (if a == Standard then '/' else '_')
  }

  function LetterValue(a: Alphabet, c: char): Option<Sextet> {
    if 'A' <= c <= 'Z' then Some((c - 'A') as int)
    else if 'a' <= c <= 'z' then Some((c - 'a') as int + 26)
    else if '0' <= c <= '9' then Some((c - '0') as int + 52)
    else if c == (if a == Standard then '+' else '-') then Some(62)
    else if c == (if a == Standard then '/' else '_') then Some(63)
    else None
  }

  function EncodeGroup(a: Alphabet, x: Byte, y: Byte, z: Byte): (s: string)
    ensures |s| == 4
  {
    [Letter(a, x / 4), Letter(a, x % 4 * 16 + y / 16), Letter(a, y % 16 * 4 + z / 64), Letter(a, z % 64)]
  }

  function Encode(a: Alphabet, b: seq<Byte>): string {
    if b == [] then ""
    else if |b| == 1 then [Letter(a, b[0] / 4), Letter(a, b[0] % 4 * 16), '=', '=']
    else if |b| == 2 then
      [Letter(a, b[0] / 4), Letter(a, b[0] % 4 * 16 + b[1] / 16), Letter(a, b[1] % 16 * 4), '=']
    else
      EncodeGroup(a, b[0], b[1], b[2]) + Encode(a, b[3..])
  }

  /** Line breaks are skipped wherever they stand. */
  function WithoutBreaks(s: string): string {
    if s == "" then ""
    else (if s[0] == '\r' || s[0] == '\n' then "" else [s[0]]) + WithoutBreaks(s[1..])
  }

  /** The bytes of a group of four characters; `last` says that the text ends after it, which
      is where padding may stand. Left-over bits of a padded group are not checked. */
  function DecodeGroup(a: Alphabet, c0: char, c1: char, c2: char, c3: char, last: bool): Option<seq<Byte>> {
    var v0, v1, v2, v3 := LetterValue(a, c0), LetterValue(a, c1), LetterValue(a, c2), LetterValue(a, c3);
    if v0.None? || v1.None? then None
    else
      var b0 := v0.value * 4 + v1.value / 16;
      if v2.None? then (if last && c2 == '=' && c3 == '=' then Some([b0]) else None)
      else
        var b1 := v1.value % 16 * 16 + v2.value / 4;
        if v3.None? then (if last && c3 == '=' then Some([b0, b1]) else None)
        else Some([b0, b1, v2.value % 4 * 64 + v3.value])
  }

  function DecodeGroups(a: Alphabet, s: string): Option<seq<Byte>> {
    if s == "" then Some([])
    else if |s| < 4 then None
    else
      var head := DecodeGroup(a, s[0], s[1], s[2], s[3], |s| == 4);
      var tail := DecodeGroups(a, s[4..]);
      if head.None? || tail.None? then None else Some(head.value + tail.value)
  }

  /** `base64.URLEncoding.DecodeString` and `base64.StdEncoding.DecodeString`. */
  function Decode(a: Alphabet, s: string): Option<seq<Byte>> {
    DecodeGroups(a, WithoutBreaks(s))
  }

  /** The URL alphabet first, the standard one when that fails. */
  function DecodeWithFallback(s: string): Option<seq<Byte>> {
    if Decode(UrlSafe, s).Some? then Decode(UrlSafe, s) else Decode(Standard, s)
  }

  /** The alphabets: three runs of letters and digits, and the two signs in which they differ. */
  lemma {:induction false} AlphabetsAre(a: Alphabet, v: nat)
    requires v < 61
    ensures v != 25 && v != 51 ==> Letter(a, v + 1) as int == Letter(a, v) as int + 1
    ensures Letter(a, 0) == 'A' && Letter(a, 25) == 'Z' && Letter(a, 26) == 'a' && Letter(a, 51) == 'z'
    ensures Letter(a, 52) == '0' && Letter(a, 61) == '9'
    ensures Letter(Standard, 62) == '+' && Letter(Standard, 63) == '/' && Letter(UrlSafe, 62) == '-' && Letter(UrlSafe, 63) == '_'
  {
  }

  /** Where the bits go: the examples "f", "fo" and "foo" of section 10 of RFC 4648. */
  lemma {:induction false} EncodedExamples(a: Alphabet)
    ensures Encode(a, [102]) == "Zg==" && Encode(a, [102, 111]) == "Zm8=" && Encode(a, [102, 111, 111]) == "Zm9v"
  {
    assert Letter(a, 102 / 4) == 'Z' && Letter(a, 102 % 4 * 16) == 'g' && Letter(a, 102 % 4 * 16 + 111 / 16) == 'm';
    assert Letter(a, 111 % 16 * 4) == '8' && Letter(a, 111 % 16 * 4 + 111 / 64) == '9' && Letter(a, 111 % 64) == 'v';
    assert Encode(a, []) == "";
    assert [102, 111, 111][3..] == [];
  }

  // ---------- which texts are accepted ----------

  predicate AllLetters(a: Alphabet, s: string) {
    forall i :: 0 <= i < |s| ==> LetterValue(a, s[i]).Some?
  }

  /** Whole groups of letters; the last group may end in one or two padding characters. */
  predicate IsBase64(a: Alphabet, s: string) {
    |s| % 4 == 0
    && (AllLetters(a, s)
        || (s[|s| - 1] == '=' && AllLetters(a, s[..|s| - 1]))
        || (s[|s| - 2] == '=' && s[|s| - 1] == '=' && AllLetters(a, s[..|s| - 2])))
  }

  lemma LastGroupAccepted(a: Alphabet, s: string)
    requires |s| == 4
    ensures DecodeGroup(a, s[0], s[1], s[2], s[3], true).Some? <==> IsBase64(a, s)
  {
    assert LetterValue(a, '=').None?;
  }

  lemma GroupAccepted(a: Alphabet, s: string)
    requires |s| > 4
    ensures DecodeGroup(a, s[0], s[1], s[2], s[3], false).Some? && IsBase64(a, s[4..]) <==> IsBase64(a, s)
  {
    var rest := s[4..];
    assert LetterValue(a, '=').None?;
    assert |s| % 4 == |rest| % 4;
    if |rest| % 4 == 0 {
      SplitLetters(a, s, |s|);
      SplitLetters(a, s, |s| - 1);
      SplitLetters(a, s, |s| - 2);
    }
  }

  lemma SplitLetters(a: Alphabet, s: string, n: nat)
    requires 4 <= n <= |s|
    ensures AllLetters(a, s[..n]) <==>
              DecodeGroup(a, s[0], s[1], s[2], s[3], false).Some? && AllLetters(a, s[4..][..n - 4])
    ensures s[..|s|] == s && s[4..][..|s| - 4] == s[4..]
  {
    assert forall i :: 4 <= i < n ==> s[..n][i] == s[4..][..n - 4][i - 4];
    assert s[4..][..n - 4] == s[..n][4..];
  }

  lemma {:induction false} GroupsAcceptedIff(a: Alphabet, s: string)
    ensures DecodeGroups(a, s).Some? <==> IsBase64(a, s)
  {
    if |s| == 4 {
      LastGroupAccepted(a, s);
      assert s[4..] == "";
    } else if |s| > 4 {
      GroupsAcceptedIff(a, s[4..]);
      GroupAccepted(a, s);
    }
  }

  /** A text is decoded exactly when it is padded base64 in the alphabet, line breaks aside. */
  lemma {:induction false} AcceptedIff(a: Alphabet, s: string)
    ensures Decode(a, s).Some? <==> IsBase64(a, WithoutBreaks(s))
  {
    GroupsAcceptedIff(a, WithoutBreaks(s));
  }

  /** Line breaks do not matter, wherever they stand; every other character stays. */
  lemma {:induction false} BreaksIgnored(a: Alphabet, before: string, behind: string)
    ensures Decode(a, before + ("\n" + behind)) == Decode(a, before + behind)
    ensures Decode(a, before + ("\r" + behind)) == Decode(a, before + behind)
  {
    WithoutBreak(before, behind, '\n');
    WithoutBreak(before, behind, '\r');
  }

  lemma {:induction false} WithoutBreak(before: string, behind: string, c: char)
    requires c == '\n' || c == '\r'
    ensures WithoutBreaks(before + ([c] + behind)) == WithoutBreaks(before + behind)
  {
    if before == "" {
      assert before + ([c] + behind) == [c] + behind && before + behind == behind && ([c] + behind)[1..] == behind;
    } else {
      WithoutBreak(before[1..], behind, c);
      assert (before + ([c] + behind))[1..] == before[1..] + ([c] + behind);
      assert (before + behind)[1..] == before[1..] + behind;
    }
  }

  // ---------- round trips ----------

  lemma LetterRoundTrip(a: Alphabet, v: Sextet)
    ensures LetterValue(a, Letter(a, v)) == Some(v)
  {
  }

  lemma {:induction false} EncodingHasNoBreaks(a: Alphabet, b: seq<Byte>)
    ensures WithoutBreaks(Encode(a, b)) == Encode(a, b)
  {
    if |b| < 3 {
      NoBreaks(Encode(a, b));
    } else {
      EncodingHasNoBreaks(a, b[3..]);
      var s := Encode(a, b);
      assert s[4..] == Encode(a, b[3..]);
      assert WithoutBreaks(s[3..]) == [s[3]] + WithoutBreaks(s[4..]) by { assert s[3..][1..] == s[4..]; }
      assert WithoutBreaks(s[2..]) == [s[2]] + WithoutBreaks(s[3..]) by { assert s[2..][1..] == s[3..]; }
      assert WithoutBreaks(s[1..]) == [s[1]] + WithoutBreaks(s[2..]) by { assert s[1..][1..] == s[2..]; }
    }
  }

  lemma {:induction false} NoBreaks(s: string)
    requires '\r' !in s && '\n' !in s
    ensures WithoutBreaks(s) == s
  {
    if s != "" {
      NoBreaks(s[1..]);
    }
  }

  /** Four sextets of three bytes give the bytes back. */
  lemma Regroup(x: Byte, y: Byte, z: Byte)
    ensures x / 4 * 4 + (x % 4 * 16 + y / 16) / 16 == x
    ensures (x % 4 * 16 + y / 16) % 16 * 16 + (y % 16 * 4 + z / 64) / 4 == y
    ensures (y % 16 * 4 + z / 64) % 4 * 64 + z % 64 == z
  {
  }

  predicate Decodes(a: Alphabet, s: string, b: seq<Byte>) {
    DecodeGroups(a, s) == Some(b)
  }

  lemma {:induction false} GroupsRoundTrip(a: Alphabet, b: seq<Byte>)
    ensures Decodes(a, Encode(a, b), b)
  {
    if |b| < 3 {
      LastGroup(a, b);
    } else {
      assert b == [b[0], b[1], b[2]] + b[3..];
      GroupsRoundTrip(a, b[3..]);
      GroupAndRest(a, b[0], b[1], b[2], b[3..], b);
    }
  }

  lemma GroupAndRest(a: Alphabet, x: Byte, y: Byte, z: Byte, more: seq<Byte>, b: seq<Byte>)
    requires b == [x, y, z] + more && Decodes(a, Encode(a, more), more)
    ensures Decodes(a, Encode(a, b), b)
  {
    assert b[3..] == more;
    assert Encode(a, b) == EncodeGroup(a, x, y, z) + Encode(a, more);
    GroupThenRest(a, x, y, z, Encode(a, more), more);
  }

  lemma GroupThenRest(a: Alphabet, x: Byte, y: Byte, z: Byte, rest: string, bytes: seq<Byte>)
    requires Decodes(a, rest, bytes)
    ensures Decodes(a, EncodeGroup(a, x, y, z) + rest, [x, y, z] + bytes)
  {
    FullGroup(a, x, y, z, rest == "");
    assert (EncodeGroup(a, x, y, z) + rest)[4..] == rest;
  }

  lemma LastGroup(a: Alphabet, b: seq<Byte>)
    requires |b| < 3
    ensures Decodes(a, Encode(a, b), b)
  {
    if |b| == 1 {
      OneByte(a, b[0]);
      assert Encode(a, b)[4..] == "";
      assert b == [b[0]] + [];
    } else if |b| == 2 {
      TwoBytes(a, b[0], b[1]);
      assert Encode(a, b)[4..] == "";
      assert b == [b[0], b[1]] + [];
    }
  }

  lemma OneByte(a: Alphabet, x: Byte)
    ensures DecodeGroup(a, Letter(a, x / 4), Letter(a, x % 4 * 16), '=', '=', true) == Some([x])
  {
    Regroup(x, 0, 0);
    LetterRoundTrip(a, x / 4);
    LetterRoundTrip(a, x % 4 * 16);
  }

  lemma TwoBytes(a: Alphabet, x: Byte, y: Byte)
    ensures DecodeGroup(a, Letter(a, x / 4), Letter(a, x % 4 * 16 + y / 16), Letter(a, y % 16 * 4), '=', true)
         == Some([x, y])
  {
    Regroup(x, y, 0);
    LetterRoundTrip(a, x / 4);
    LetterRoundTrip(a, x % 4 * 16 + y / 16);
    LetterRoundTrip(a, y % 16 * 4);
  }

  lemma FullGroup(a: Alphabet, x: Byte, y: Byte, z: Byte, last: bool)
    ensures DecodeGroup(a, Letter(a, x / 4), Letter(a, x % 4 * 16 + y / 16), Letter(a, y % 16 * 4 + z / 64),
                        Letter(a, z % 64), last) == Some([x, y, z])
  {
    Regroup(x, y, z);
    LetterRoundTrip(a, x / 4);
    LetterRoundTrip(a, x % 4 * 16 + y / 16);
    LetterRoundTrip(a, y % 16 * 4 + z / 64);
    LetterRoundTrip(a, z % 64);
  }

  lemma EncodeThenDecode(a: Alphabet, b: seq<Byte>)
    ensures Decode(a, Encode(a, b)) == Some(b)
  {
    EncodingHasNoBreaks(a, b);
    GroupsRoundTrip(a, b);
  }

  lemma ValuesAgree(c: char)
    ensures LetterValue(UrlSafe, c).Some? && LetterValue(Standard, c).Some? ==>
              LetterValue(UrlSafe, c) == LetterValue(Standard, c)
    ensures c == '=' ==> LetterValue(UrlSafe, c).None? && LetterValue(Standard, c).None?
  {
  }

  predicate Agree(x: Option<seq<Byte>>, y: Option<seq<Byte>>) {
    x.Some? && y.Some? ==> x == y
  }

  lemma GroupsAgree(c0: char, c1: char, c2: char, c3: char, last: bool)
    ensures Agree(DecodeGroup(UrlSafe, c0, c1, c2, c3, last), DecodeGroup(Standard, c0, c1, c2, c3, last))
  {
    ValuesAgree(c0);
    ValuesAgree(c1);
    ValuesAgree(c2);
    ValuesAgree(c3);
  }

  /** On every text, whatever its origin, the two alphabets never give two different answers. */
  lemma {:induction false} AlphabetsAgree(s: string)
    ensures Agree(DecodeGroups(UrlSafe, s), DecodeGroups(Standard, s))
  {
    if |s| >= 4 {
      AlphabetsAgree(s[4..]);
      GroupsAgree(s[0], s[1], s[2], s[3], |s| == 4);
    }
  }

  /** So the order of the two attempts does not matter. */
  lemma {:induction false} FallbackOrderIrrelevant(s: string)
    ensures DecodeWithFallback(s) == if Decode(Standard, s).Some? then Decode(Standard, s) else Decode(UrlSafe, s)
  {
    AlphabetsAgree(WithoutBreaks(s));
  }

  /** The decoder inverts both encoders on every byte string; the first attempt either fails or is
      already right. */
  lemma {:induction false} FallbackInvertsBoth(b: seq<Byte>, a: Alphabet, text: string)
    requires text == Encode(a, b)
    ensures DecodeWithFallback(text) == Some(b)
    ensures Decode(UrlSafe, text).None? || Decode(UrlSafe, text) == Some(b)
  {
    EncodeThenDecode(a, b);
    FallbackOrderIrrelevant(text);
    AlphabetsAgree(WithoutBreaks(text));
  }
}

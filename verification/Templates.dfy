/** The placeholder substitution of the BMX registry: Go replaces `{BMX_SERVER}` and then
    `{MEDIA_SERVER}`, Python the other way round. */
module Templates {
  import opened Common

  const BMX := "BMX_SERVER"
  const MEDIA := "MEDIA_SERVER"

  function Placeholder(word: string): string {
    "{" + word + "}"
  }

  /** `strings.ReplaceAll` for a non-empty old string: left to right, without overlap. */
  function ReplaceAll(s: string, old_: string, new_: string): string
    requires old_ != ""
  {
    if s == "" then ""
    else if HasPrefix(s, old_) then new_ + ReplaceAll(s[|old_|..], old_, new_)
    else [s[0]] + ReplaceAll(s[1..], old_, new_)
  }

  function GoRegistry(template: string, baseUrl: string): string {
    ReplaceAll(ReplaceAll(template, Placeholder(BMX), baseUrl), Placeholder(MEDIA), baseUrl + "/media")
  }

  function PythonRegistry(template: string, baseUrl: string): string {
    ReplaceAll(ReplaceAll(template, Placeholder(MEDIA), baseUrl + "/media"), Placeholder(BMX), baseUrl)
  }

  /** Both placeholders replaced in one pass over the template. */
  function ReplaceBoth(s: string, w1: string, r1: string, w2: string, r2: string): string {
    if s == "" then ""
    else if HasPrefix(s, Placeholder(w1)) then r1 + ReplaceBoth(s[|w1| + 2..], w1, r1, w2, r2)
    else if HasPrefix(s, Placeholder(w2)) then r2 + ReplaceBoth(s[|w2| + 2..], w1, r1, w2, r2)
    else [s[0]] + ReplaceBoth(s[1..], w1, r1, w2, r2)
  }

  predicate NoBraces(s: string) {
    '{' !in s && '}' !in s
  }

  ghost predicate Occurs(part: string, s: string) {
    exists i :: 0 <= i <= |s| && HasPrefix(s[i..], part)
  }

  // ---------- one replacement ----------

  /** Text without an opening brace is copied. */
  lemma {:induction false} ReplaceCopies(x: string, y: string, w: string, r: string)
    requires '{' !in x
    ensures ReplaceAll(x + y, Placeholder(w), r) == x + ReplaceAll(y, Placeholder(w), r)
  {
    if x == "" {
      assert x + y == y;
    } else {
      assert (x + y)[1..] == x[1..] + y;
      assert !HasPrefix(x + y, Placeholder(w)) by {
        assert (x + y)[0] != '{';
      }
      ReplaceCopies(x[1..], y, w, r);
    }
  }

  lemma ReplaceAtPlaceholder(y: string, w: string, r: string)
    ensures ReplaceAll(Placeholder(w) + y, Placeholder(w), r) == r + ReplaceAll(y, Placeholder(w), r)
  {
    var s := Placeholder(w) + y;
    assert s[..|Placeholder(w)|] == Placeholder(w) && s[|Placeholder(w)|..] == y;
  }

  lemma ReplaceSkipsOther(y: string, w: string, r: string, other: string)
    requires NoBraces(w) && NoBraces(other) && w != other
    ensures ReplaceAll(Placeholder(other) + y, Placeholder(w), r) == Placeholder(other) + ReplaceAll(y, Placeholder(w), r)
  {
    var s, p, q := Placeholder(other) + y, Placeholder(w), Placeholder(other);
    assert !HasPrefix(s, p) by {
      if HasPrefix(s, p) {
        PlaceholdersDiffer(y, w, other);
      }
    }
    assert s[1..] == (other + "}") + y;
    ReplaceCopies(other + "}", y, w, r);
  }

  lemma PlaceholdersDiffer(y: string, w: string, other: string)
    requires NoBraces(w) && NoBraces(other) && HasPrefix(Placeholder(other) + y, Placeholder(w))
    ensures w == other
  {
    var s := Placeholder(other) + y;
    assert s[|other| + 1] == '}' && s[|w| + 1] == s[..|w| + 2][|w| + 1] == '}';
    assert forall k :: 0 <= k < |w| ==> s[k + 1] == s[..|w| + 2][k + 1] == w[k] != '}';
    assert forall k :: 0 <= k < |other| ==> s[k + 1] == other[k] != '}';
    assert |w| == |other|;
  }

  /** A replacement that is no part of `v` cannot create text that starts with the rest of a
      placeholder: what starts with `v + "}"` afterwards already did. */
  lemma {:induction false} NoNewTail(z: string, v: string, w: string, r: string)
    requires NoBraces(v) && NoBraces(r) && !Occurs(r, v)
    requires HasPrefix(ReplaceAll(z, Placeholder(w), r), v + "}")
    ensures HasPrefix(z, v + "}")
    decreases |v|
  {
    var out, t := ReplaceAll(z, Placeholder(w), r), v + "}";
    assert out[0] == out[..|t|][0] == t[0];
    if HasPrefix(z, Placeholder(w)) {
      assert false by {
        ReplacementFits(r, ReplaceAll(z[|Placeholder(w)|..], Placeholder(w), r), v);
      }
    } else if v != "" {
      assert out == [z[0]] + ReplaceAll(z[1..], Placeholder(w), r);
      assert out[1..][..|v|] == out[..|t|][1..] == t[1..] == v[1..] + "}";
      TailNotInside(r, v);
      NoNewTail(z[1..], v[1..], w, r);
      assert z[..|t|] == [z[0]] + z[1..][..|v|];
    } else {
      assert z[..1] == [z[0]];
    }
  }

  lemma TailNotInside(r: string, v: string)
    requires v != "" && !Occurs(r, v)
    ensures !Occurs(r, v[1..])
  {
    forall i | 0 <= i <= |v[1..]| ensures !HasPrefix(v[1..][i..], r) {
      assert v[1..][i..] == v[i + 1..];
    }
  }

  /** A brace-free `r` in front of anything starts with `v + "}"` only if `r` is a prefix of `v`. */
  lemma ReplacementFits(r: string, rest: string, v: string)
    requires NoBraces(r) && HasPrefix(r + rest, v + "}")
    ensures Occurs(r, v)
  {
    var s, t := r + rest, v + "}";
    assert s[|v|] == s[..|t|][|v|] == '}';
    assert forall k :: 0 <= k < |r| ==> s[k] == r[k] != '}';
    assert v[..|r|] == t[..|r|] == s[..|t|][..|r|] == s[..|r|] == r;
    assert v[0..] == v;
    assert HasPrefix(v[0..], r);
  }

  // ---------- two replacements ----------

  /** Replacing one placeholder and then the other is the one-pass substitution, if the first
      replacement is no part of the second word. */
  lemma {:induction false} TwoPassesAreOne(s: string, w1: string, r1: string, w2: string, r2: string)
    requires NoBraces(w1) && NoBraces(w2) && w1 != w2 && NoBraces(r1) && !Occurs(r1, w2)
    ensures ReplaceAll(ReplaceAll(s, Placeholder(w1), r1), Placeholder(w2), r2) == ReplaceBoth(s, w1, r1, w2, r2)
    decreases |s|
  {
    var p1, p2 := Placeholder(w1), Placeholder(w2);
    if s == "" {
    } else if HasPrefix(s, p1) {
      ReplaceCopies(r1, ReplaceAll(s[|p1|..], p1, r1), w2, r2);
      TwoPassesAreOne(s[|p1|..], w1, r1, w2, r2);
    } else if HasPrefix(s, p2) {
      var y := s[|p2|..];
      assert s == p2 + y;
      ReplaceSkipsOther(y, w1, r1, w2);
      ReplaceAtPlaceholder(ReplaceAll(y, p1, r1), w2, r2);
      TwoPassesAreOne(y, w1, r1, w2, r2);
    } else {
      var y := ReplaceAll(s[1..], p1, r1);
      assert ReplaceAll(s, p1, r1) == [s[0]] + y;
      assert !HasPrefix([s[0]] + y, p2) by {
        if HasPrefix([s[0]] + y, p2) {
          StartsAfterBrace(s[0], y, w2);
          NoNewTail(s[1..], w2, w1, r1);
          BraceThenWord(s, w2);
        }
      }
      assert ([s[0]] + y)[1..] == y;
      TwoPassesAreOne(s[1..], w1, r1, w2, r2);
    }
  }

  lemma StartsAfterBrace(c: char, y: string, w: string)
    requires HasPrefix([c] + y, Placeholder(w))
    ensures c == '{' && HasPrefix(y, w + "}")
  {
    var s, p := [c] + y, Placeholder(w);
    assert s[0] == s[..|p|][0] == p[0];
    assert y[..|w| + 1] == s[..|p|][1..] == p[1..] == w + "}";
  }

  lemma BraceThenWord(s: string, w: string)
    requires s != "" && s[0] == '{' && HasPrefix(s[1..], w + "}")
    ensures HasPrefix(s, Placeholder(w))
  {
    assert s[..|w| + 2] == [s[0]] + s[1..][..|w| + 1] == Placeholder(w);
  }

  lemma {:induction false} ReplaceBothCommutes(s: string, w1: string, r1: string, w2: string, r2: string)
    requires NoBraces(w1) && NoBraces(w2) && w1 != w2
    ensures ReplaceBoth(s, w1, r1, w2, r2) == ReplaceBoth(s, w2, r2, w1, r1)
    decreases |s|
  {
    if s != "" {
      if HasPrefix(s, Placeholder(w1)) {
        ReplaceBothCommutes(s[|w1| + 2..], w1, r1, w2, r2);
        assert !HasPrefix(s, Placeholder(w2)) by {
          if HasPrefix(s, Placeholder(w2)) {
            assert s == Placeholder(w1) + s[|w1| + 2..];
            PlaceholdersDiffer(s[|w1| + 2..], w2, w1);
          }
        }
      } else if HasPrefix(s, Placeholder(w2)) {
        ReplaceBothCommutes(s[|w2| + 2..], w1, r1, w2, r2);
      } else {
        ReplaceBothCommutes(s[1..], w1, r1, w2, r2);
      }
    }
  }

  // ---------- what is left over ----------

  /** Replacing a placeholder leaves none of it, if the replacement is no part of its word. */
  lemma {:induction false} NoneLeft(s: string, w: string, r: string, i: nat)
    requires NoBraces(w) && NoBraces(r) && !Occurs(r, w)
    requires i <= |ReplaceAll(s, Placeholder(w), r)|
    ensures !HasPrefix(ReplaceAll(s, Placeholder(w), r)[i..], Placeholder(w))
    decreases |s|
  {
    var p, out := Placeholder(w), ReplaceAll(s, Placeholder(w), r);
    if s == "" {
    } else if HasPrefix(s, p) {
      if i < |r| {
        assert out[i..][0] == r[i];
      } else {
        NoneLeft(s[|p|..], w, r, i - |r|);
        assert out[i..] == ReplaceAll(s[|p|..], p, r)[i - |r|..];
      }
    } else {
      LiteralStep(s, w, w, r, i);
      if i > 0 {
        NoneLeft(s[1..], w, r, i - 1);
      }
    }
  }

  /** A literal character in front does not complete a placeholder that was not there. */
  lemma LiteralStep(s: string, w: string, w': string, r: string, i: nat)
    requires NoBraces(w) && NoBraces(r) && !Occurs(r, w)
    requires s != "" && !HasPrefix(s, Placeholder(w)) && !HasPrefix(s, Placeholder(w'))
    requires i <= |ReplaceAll(s, Placeholder(w'), r)|
    ensures i == 0 ==> !HasPrefix(ReplaceAll(s, Placeholder(w'), r)[i..], Placeholder(w))
    ensures i > 0 ==> ReplaceAll(s, Placeholder(w'), r)[i..] == ReplaceAll(s[1..], Placeholder(w'), r)[i - 1..]
  {
    var y := ReplaceAll(s[1..], Placeholder(w'), r);
    var out := ReplaceAll(s, Placeholder(w'), r);
    assert out == [s[0]] + y;
    if i == 0 {
      assert out[0..] == out;
      assert !HasPrefix(out, Placeholder(w)) by {
        if HasPrefix(out, Placeholder(w)) {
          StartsAfterBrace(s[0], y, w);
          NoNewTail(s[1..], w, w', r);
          BraceThenWord(s, w);
        }
      }
    }
  }

  /** Replacing another placeholder creates none of it either. */
  lemma {:induction false} NoneCreated(s: string, w: string, w': string, r: string, i: nat)
    requires NoBraces(w) && NoBraces(r) && !Occurs(r, w)
    requires forall k :: 0 <= k <= |s| ==> !HasPrefix(s[k..], Placeholder(w))
    requires i <= |ReplaceAll(s, Placeholder(w'), r)|
    ensures !HasPrefix(ReplaceAll(s, Placeholder(w'), r)[i..], Placeholder(w))
    decreases |s|
  {
    var p', out := Placeholder(w'), ReplaceAll(s, Placeholder(w'), r);
    if s == "" {
    } else if HasPrefix(s, p') {
      if i < |r| {
        assert out[i..][0] == r[i];
      } else {
        forall k | 0 <= k <= |s[|p'|..]| ensures !HasPrefix(s[|p'|..][k..], Placeholder(w)) {
          assert s[|p'|..][k..] == s[|p'| + k..];
        }
        NoneCreated(s[|p'|..], w, w', r, i - |r|);
        assert out[i..] == ReplaceAll(s[|p'|..], p', r)[i - |r|..];
      }
    } else {
      assert s[0..] == s;
      LiteralStep(s, w, w', r, i);
      if i > 0 {
        forall k | 0 <= k <= |s[1..]| ensures !HasPrefix(s[1..][k..], Placeholder(w)) {
          assert s[1..][k..] == s[k + 1..];
        }
        NoneCreated(s[1..], w, w', r, i - 1);
      }
    }
  }

  lemma NotPartWithout(r: string, w: string, c: char)
    requires c in r && c !in w
    ensures !Occurs(r, w)
  {
    forall i | 0 <= i <= |w| ensures !HasPrefix(w[i..], r) {
      var k :| 0 <= k < |r| && r[k] == c;
      assert |r| <= |w| - i ==> w[i..][..|r|][k] == w[i + k];
    }
  }

  // ---------- the two programs ----------

  lemma AgreeOn(template: string, baseUrl: string)
    requires NoBraces(baseUrl) && !Occurs(baseUrl, MEDIA)
    ensures GoRegistry(template, baseUrl) == PythonRegistry(template, baseUrl)
  {
    var media := baseUrl + "/media";
    assert '/' == media[|baseUrl|];
    NotPartWithout(media, BMX, '/');
    TwoPassesAreOne(template, BMX, baseUrl, MEDIA, media);
    TwoPassesAreOne(template, MEDIA, media, BMX, baseUrl);
    ReplaceBothCommutes(template, BMX, baseUrl, MEDIA, media);
  }

  /** What is put in: a template with one placeholder, in both programs. */
  lemma {:induction false} OnePlaceholder(before: string, behind: string, baseUrl: string)
    requires NoBraces(before) && NoBraces(behind) && NoBraces(baseUrl)
    ensures GoRegistry(before + ("{BMX_SERVER}" + behind), baseUrl) == before + (baseUrl + behind)
    ensures PythonRegistry(before + ("{BMX_SERVER}" + behind), baseUrl) == before + (baseUrl + behind)
    ensures GoRegistry(before + ("{MEDIA_SERVER}" + behind), baseUrl) == before + (baseUrl + "/media" + behind)
    ensures PythonRegistry(before + ("{MEDIA_SERVER}" + behind), baseUrl) == before + (baseUrl + "/media" + behind)
  {
    var media := baseUrl + "/media";
    assert Placeholder(BMX) == "{BMX_SERVER}" && Placeholder(MEDIA) == "{MEDIA_SERVER}";
    ReplacedOnce(before, behind, BMX, baseUrl, MEDIA, media);
    ReplacedOnce(before, behind, MEDIA, media, BMX, baseUrl);
  }

  /** A placeholder in plain text goes in either pass, and the other pass leaves the text alone. */
  lemma ReplacedOnce(before: string, behind: string, w: string, r: string, w': string, r': string)
    requires NoBraces(before) && NoBraces(behind) && NoBraces(r) && NoBraces(w) && NoBraces(w') && w != w'
    ensures ReplaceAll(ReplaceAll(before + (Placeholder(w) + behind), Placeholder(w), r), Placeholder(w'), r') == before + (r + behind)
    ensures ReplaceAll(ReplaceAll(before + (Placeholder(w) + behind), Placeholder(w'), r'), Placeholder(w), r) == before + (r + behind)
  {
    PlainText(behind, w, r);
    PlainText(behind, w', r');
    PlainText(before + (r + behind), w', r');
    ReplaceCopies(before, Placeholder(w) + behind, w, r);
    ReplaceAtPlaceholder(behind, w, r);
    ReplaceCopies(before, Placeholder(w) + behind, w', r');
    ReplaceSkipsOther(behind, w', r', w);
  }

  lemma PlainText(s: string, w: string, r: string)
    requires NoBraces(s)
    ensures ReplaceAll(s, Placeholder(w), r) == s
  {
    ReplaceCopies(s, "", w, r);
    assert s + "" == s;
  }

  /** The placeholder of `inner` set into the word `outer` in place of its part `base`. */
  function Nested(outer: string, i: nat, base: string, inner: string): string
    requires i + |base| <= |outer|
  {
    "{" + (outer[..i] + (Placeholder(inner) + (outer[i + |base|..] + "}")))
  }

  lemma NestedReplaced(outer: string, i: nat, base: string, inner: string, w: string, r: string)
    requires NoBraces(outer) && NoBraces(inner) && NoBraces(w) && i + |base| <= |outer|
    ensures ReplaceAll(Nested(outer, i, base, inner), Placeholder(w), r)
         == "{" + (outer[..i] + ((if w == inner then r else Placeholder(inner)) + (outer[i + |base|..] + "}")))
  {
    var tail := outer[i + |base|..] + "}";
    var rest := outer[..i] + (Placeholder(inner) + tail);
    var s := "{" + rest;
    assert !HasPrefix(s, Placeholder(w)) by {
      BraceInside(s, w, i + 1);
    }
    assert s[1..] == rest;
    ReplaceCopies(outer[..i], Placeholder(inner) + tail, w, r);
    ReplaceCopies(tail, "", w, r);
    assert tail + "" == tail;
    if w == inner {
      ReplaceAtPlaceholder(tail, w, r);
    } else {
      ReplaceSkipsOther(tail, w, r, inner);
    }
  }

  /** A second opening brace before the first closing one rules a placeholder out. */
  lemma BraceInside(s: string, w: string, k: nat)
    requires NoBraces(w) && 1 <= k < |s| && s[k] == '{' && forall j :: 1 <= j < k ==> s[j] != '}'
    ensures !HasPrefix(s, Placeholder(w))
  {
    var p := Placeholder(w);
    assert |p| <= |s| ==> s[..|p|][|w| + 1] == s[|w| + 1];
    assert k < |p| <= |s| ==> s[..|p|][k] == s[k];
  }

  /** Putting the part back in place of the nested placeholder gives the outer placeholder. */
  lemma Rejoined(outer: string, i: nat, base: string)
    requires i <= |outer| && HasPrefix(outer[i..], base)
    ensures "{" + (outer[..i] + (base + (outer[i + |base|..] + "}"))) == Placeholder(outer)
  {
    assert outer == outer[..i] + (base + outer[i + |base|..]);
  }

  lemma Disagreement(baseUrl: string) returns (template: string)
    requires NoBraces(baseUrl) && Occurs(baseUrl, MEDIA)
    ensures GoRegistry(template, baseUrl) == baseUrl + "/media"
    ensures PythonRegistry(template, baseUrl) == Placeholder(MEDIA)
  {
    var i :| 0 <= i <= |MEDIA| && HasPrefix(MEDIA[i..], baseUrl);
    template := Nested(MEDIA, i, baseUrl, BMX);
    var media := baseUrl + "/media";
    Rejoined(MEDIA, i, baseUrl);
    NestedReplaced(MEDIA, i, baseUrl, BMX, BMX, baseUrl);
    ReplaceAtPlaceholder("", MEDIA, media);
    assert Placeholder(MEDIA) + "" == Placeholder(MEDIA) && media + "" == media;
    NestedReplaced(MEDIA, i, baseUrl, BMX, MEDIA, media);
  }

  /** For a base URL without braces, the two programs give the same registry for every template exactly
      when the base URL is no part of the text MEDIA_SERVER. */
  lemma {:induction false} OrdersAgreeIff(baseUrl: string)
    requires NoBraces(baseUrl)
    ensures (forall t :: GoRegistry(t, baseUrl) == PythonRegistry(t, baseUrl)) <==> !Occurs(baseUrl, MEDIA)
  {
    if Occurs(baseUrl, MEDIA) {
      var t := Disagreement(baseUrl);
      assert (baseUrl + "/media")[|baseUrl|] == '/' && '/' !in Placeholder(MEDIA);
      assert GoRegistry(t, baseUrl) != PythonRegistry(t, baseUrl);
    } else {
      forall t ensures GoRegistry(t, baseUrl) == PythonRegistry(t, baseUrl) {
        AgreeOn(t, baseUrl);
      }
    }
  }

  ghost predicate FullySubstituted(s: string) {
    !Occurs(Placeholder(BMX), s) && !Occurs(Placeholder(MEDIA), s)
  }

  lemma GoSubstitutes(template: string, baseUrl: string)
    requires NoBraces(baseUrl) && !Occurs(baseUrl, BMX)
    ensures FullySubstituted(GoRegistry(template, baseUrl))
  {
    var media, once := baseUrl + "/media", ReplaceAll(template, Placeholder(BMX), baseUrl);
    assert '/' == media[|baseUrl|];
    NotPartWithout(media, BMX, '/');
    NotPartWithout(media, MEDIA, '/');
    forall k | 0 <= k <= |once| ensures !HasPrefix(once[k..], Placeholder(BMX)) {
      NoneLeft(template, BMX, baseUrl, k);
    }
    forall k | 0 <= k <= |GoRegistry(template, baseUrl)|
      ensures !HasPrefix(GoRegistry(template, baseUrl)[k..], Placeholder(BMX))
      ensures !HasPrefix(GoRegistry(template, baseUrl)[k..], Placeholder(MEDIA))
    {
      NoneCreated(once, BMX, MEDIA, media, k);
      NoneLeft(once, MEDIA, media, k);
    }
  }

  lemma Leftover(baseUrl: string) returns (template: string)
    requires NoBraces(baseUrl) && Occurs(baseUrl, BMX)
    ensures GoRegistry(template, baseUrl) == Placeholder(BMX)
  {
    var i :| 0 <= i <= |BMX| && HasPrefix(BMX[i..], baseUrl);
    template := Nested(BMX, i, baseUrl, BMX);
    Rejoined(BMX, i, baseUrl);
    NestedReplaced(BMX, i, baseUrl, BMX, BMX, baseUrl);
    assert Placeholder(BMX) + "" == Placeholder(BMX);
    ReplaceSkipsOther("", MEDIA, baseUrl + "/media", BMX);
  }

  /** Go's result never contains a placeholder, whatever the template, exactly when the base URL is no
      part of the text BMX_SERVER. */
  lemma {:induction false} GoSubstitutesIff(baseUrl: string)
    requires NoBraces(baseUrl)
    ensures (forall t :: FullySubstituted(GoRegistry(t, baseUrl))) <==> !Occurs(baseUrl, BMX)
  {
    if Occurs(baseUrl, BMX) {
      var t := Leftover(baseUrl);
      assert Placeholder(BMX)[0..] == Placeholder(BMX);
      assert HasPrefix(GoRegistry(t, baseUrl)[0..], Placeholder(BMX));
    } else {
      forall t ensures FullySubstituted(GoRegistry(t, baseUrl)) {
        GoSubstitutes(t, baseUrl);
      }
    }
  }

  /** Any base URL with a slash, such as every http URL, is safe on both counts. */
  lemma {:induction false} SlashIsEnough(template: string, baseUrl: string)
    requires NoBraces(baseUrl) && '/' in baseUrl
    ensures GoRegistry(template, baseUrl) == PythonRegistry(template, baseUrl)
    ensures FullySubstituted(GoRegistry(template, baseUrl))
  {
    NotPartWithout(baseUrl, MEDIA, '/');
    NotPartWithout(baseUrl, BMX, '/');
    AgreeOn(template, baseUrl);
    GoSubstitutes(template, baseUrl);
  }
}

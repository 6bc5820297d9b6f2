/**
 Model names of scheduler.go. The lower-casing of letters is a parameter of what is proved; the other
 modules use the one for ASCII.
 */
module ModelNames {

  /** The characters that are trimmed: the white space of Unicode. */
  predicate IsSpace(c: char) {
    || '\t' <= c <= '\r' || c == ' '
    || c == '\U{0085}' || c == '\U{00A0}' || c == '\U{1680}' || '\U{2000}' <= c <= '\U{200A}'
    || c == '\U{2028}' || c == '\U{2029}' || c == '\U{202F}' || c == '\U{205F}' || c == '\U{3000}'
  }

  function LowerAscii(c: char): char {
    if 'A' <= c <= 'Z' then c + 'a' - 'A' else c
  }

  function Mapped(s: string, lower: char -> char): (r: string)
    ensures |r| == |s|
    ensures forall i | 0 <= i < |s| :: r[i] == lower(s[i])
  {
    if s == "" then "" else [lower(s[0])] + Mapped(s[1..], lower)
  }

  function TrimLeft(s: string): string {
    if s != "" && IsSpace(s[0]) then TrimLeft(s[1..]) else s
  }

  function TrimRight(s: string): string {
    if s != "" && IsSpace(s[|s| - 1]) then TrimRight(s[..|s| - 1]) else s
  }

  /** Lower case, no surrounding space, and a tag: "latest" if none is given. */
  function NormalizeBy(lower: char -> char, name: string): string {
    var trimmed := Mapped(TrimRight(TrimLeft(name)), lower);
    if trimmed != "" && ':' !in trimmed then trimmed + ":latest" else trimmed
  }

  function Normalize(name: string): string {
    NormalizeBy(LowerAscii, name)
  }

  /** The ASCII letters go to their small ones and nothing else changes. */
  lemma LowerAsciiMeans(i: nat, c: char)
    requires i < 26
    ensures LowerAscii("ABCDEFGHIJKLMNOPQRSTUVWXYZ"[i]) == "abcdefghijklmnopqrstuvwxyz"[i]
    ensures LowerAscii(c) != c ==> c in "ABCDEFGHIJKLMNOPQRSTUVWXYZ"
    ensures LowerAscii(c) == LowerAscii(LowerAscii(c))
  {
    var upper := "ABCDEFGHIJKLMNOPQRSTUVWXYZ";
    assert forall k | 0 <= k < 26 :: upper[k] == 'A' + k as char;
    if 'A' <= c <= 'Z' { assert upper[c as int - 'A' as int] == c; }
  }

  /**
   A way to lower-case characters one by one, as Unicode's simple mapping is: doing it twice is doing
   it once, small ASCII letters stay, and white space and colons are neither made nor lost.
   */
  ghost predicate IsLowering(lower: char -> char) {
    && (forall c: char :: lower(lower(c)) == lower(c))
    && (forall c: char :: IsSpace(lower(c)) <==> IsSpace(c))
    && (forall c: char :: lower(c) == ':' <==> c == ':')
    && (forall c: char | 'a' <= c <= 'z' :: lower(c) == c)
  }

  lemma AsciiIsLowering()
    ensures IsLowering(LowerAscii)
  {
  }

  ghost predicate AllSpace(s: string) {
    forall i | 0 <= i < |s| :: IsSpace(s[i])
  }

  lemma {:induction false} TrimLeftDrops(pre: string, s: string)
    requires AllSpace(pre) && (s == "" || !IsSpace(s[0]))
    ensures TrimLeft(pre + s) == s
  {
    if pre == "" {
      assert pre + s == s;
    } else {
      assert (pre + s)[0] == pre[0] && (pre + s)[1..] == pre[1..] + s;
      TrimLeftDrops(pre[1..], s);
    }
  }

  lemma {:induction false} TrimRightDrops(s: string, post: string)
    requires AllSpace(post) && (s == "" || !IsSpace(s[|s| - 1]))
    ensures TrimRight(s + post) == s
  {
    if post == "" {
      assert s + post == s;
    } else {
      var n := |post| - 1;
      assert (s + post)[|s + post| - 1] == post[n] && (s + post)[..|s + post| - 1] == s + post[..n];
      TrimRightDrops(s, post[..n]);
    }
  }

  lemma TrimBoth(pre: string, name: string, post: string)
    requires AllSpace(pre) && AllSpace(post)
    requires name != "" ==> !IsSpace(name[0]) && !IsSpace(name[|name| - 1])
    ensures TrimRight(TrimLeft(pre + name + post)) == name
  {
    hide IsSpace;
    if name == "" {
      assert pre + name + post == pre + post + "";
      TrimLeftDrops(pre + post, "");
    } else {
      assert pre + name + post == pre + (name + post) && (name + post)[0] == name[0];
      TrimLeftDrops(pre, name + post);
      TrimRightDrops(name, post);
    }
  }

  lemma ColonStays(lower: char -> char, name: string)
    requires IsLowering(lower)
    ensures ':' in name <==> ':' in Mapped(name, lower)
  {
    hide IsSpace;
    var mapped := Mapped(name, lower);
    if i :| 0 <= i < |name| && name[i] == ':' { assert mapped[i] == ':'; }
    if i :| 0 <= i < |mapped| && mapped[i] == ':' { assert name[i] == ':'; }
  }

  /**
   What normalization does to a name between white space: the name in lower case, as it is if it has a
   tag, and with the tag "latest" if it has none.
   */
  lemma NormalizeMeans(lower: char -> char, pre: string, name: string, post: string)
    requires IsLowering(lower) && AllSpace(pre) && AllSpace(post)
    requires name != "" ==> !IsSpace(name[0]) && !IsSpace(name[|name| - 1])
    ensures NormalizeBy(lower, pre + name + post) ==
            Mapped(name, lower) + if name == "" || ':' in name then "" else ":latest"
  {
    TrimBoth(pre, name, post);
    ColonStays(lower, name);
    hide IsSpace, TrimLeft, TrimRight, AllSpace, Mapped;
    assert Mapped(name, lower) + "" == Mapped(name, lower);
  }

  lemma MappedTag(lower: char -> char, name: string)
    requires IsLowering(lower)
    ensures Mapped(name + ":latest", lower) == Mapped(name, lower) + ":latest"
  {
    hide IsSpace, Mapped;
    var tagged := name + ":latest";
    forall i | 0 <= i < |tagged| ensures Mapped(tagged, lower)[i] == (Mapped(name, lower) + ":latest")[i] {
      if i >= |name| { assert tagged[i] == ":latest"[i - |name|]; }
    }
  }

  /** A name without a tag and the same name with the tag "latest" are one model. */
  lemma UntaggedIsLatest(lower: char -> char, name: string)
    requires IsLowering(lower)
    requires name != "" && !IsSpace(name[0]) && !IsSpace(name[|name| - 1]) && ':' !in name
    ensures NormalizeBy(lower, name) == NormalizeBy(lower, name + ":latest") == Mapped(name, lower) + ":latest"
  {
    hide *;
    LetterIsNoSpace();
    var tagged := name + ":latest";
    assert tagged[0] == name[0];
    assert tagged[|tagged| - 1] == ":latest"[6] == 't';
    assert tagged[|name|] == ":latest"[0] == ':';
    MappedTag(lower, name);
    NormalizeClean(lower, name);
    NormalizeClean(lower, tagged);
  }

  lemma LetterIsNoSpace()
    ensures !IsSpace('t')
  {
  }

  lemma NormalizeClean(lower: char -> char, name: string)
    requires IsLowering(lower)
    requires name != "" && !IsSpace(name[0]) && !IsSpace(name[|name| - 1])
    ensures NormalizeBy(lower, name) == if ':' in name then Mapped(name, lower) else Mapped(name, lower) + ":latest"
  {
    hide IsSpace, IsLowering, Mapped, NormalizeBy;
    NormalizeMeans(lower, "", name, "");
    assert "" + name + "" == name;
    assert Mapped(name, lower) + "" == Mapped(name, lower);
  }

  ghost predicate Normal(lower: char -> char, name: string) {
    && (name != "" ==> !IsSpace(name[0]) && !IsSpace(name[|name| - 1]))
    && (forall i | 0 <= i < |name| :: lower(name[i]) == name[i])
    && (name == "" || ':' in name)
  }

  lemma {:induction false} TrimLeftTrims(s: string)
    ensures TrimLeft(s) == "" || !IsSpace(TrimLeft(s)[0])
  {
    if s != "" && IsSpace(s[0]) { TrimLeftTrims(s[1..]); }
  }

  lemma {:induction false} TrimRightTrims(s: string)
    requires s == "" || !IsSpace(s[0])
    ensures TrimRight(s) == "" || (!IsSpace(TrimRight(s)[0]) && !IsSpace(TrimRight(s)[|TrimRight(s)| - 1]))
  {
    if s != "" && IsSpace(s[|s| - 1]) {
      TrimRightTrims(s[..|s| - 1]);
    }
  }

  lemma TagIsNormal(lower: char -> char, r: string)
    requires IsLowering(lower)
    requires r != "" && !IsSpace(r[0]) && forall i | 0 <= i < |r| :: lower(r[i]) == r[i]
    ensures Normal(lower, r + ":latest")
  {
    var tagged := r + ":latest";
    assert !IsSpace('t');
    hide IsSpace;
    assert tagged[|r|] == ':' && tagged[|tagged| - 1] == 't' && tagged[0] == r[0];
    forall i | 0 <= i < |tagged| ensures lower(tagged[i]) == tagged[i] {
      if i >= |r| { assert tagged[i] == ":latest"[i - |r|]; }
    }
  }

  lemma NormalizeIsNormal(lower: char -> char, name: string)
    requires IsLowering(lower)
    ensures Normal(lower, NormalizeBy(lower, name))
  {
    hide IsSpace, Mapped;
    TrimLeftTrims(name);
    TrimRightTrims(TrimLeft(name));
    var t := TrimRight(TrimLeft(name));
    if t != "" {
      assert Mapped(t, lower)[0] == lower(t[0]) && Mapped(t, lower)[|t| - 1] == lower(t[|t| - 1]);
      TagIsNormal(lower, Mapped(t, lower));
    }
  }

  /**
   The names that normalization leaves alone are exactly the normal ones, so normalizing twice,
   as the request path does, is the same as normalizing once.
   */
  lemma NormalizeIdempotent(lower: char -> char, name: string)
    requires IsLowering(lower)
    ensures NormalizeBy(lower, name) == name <==> Normal(lower, name)
    ensures NormalizeBy(lower, NormalizeBy(lower, name)) == NormalizeBy(lower, name)
  {
    NormalizeIsNormal(lower, name);
    NormalStays(lower, NormalizeBy(lower, name));
    if Normal(lower, name) { NormalStays(lower, name); }
  }

  lemma NormalStays(lower: char -> char, name: string)
    requires Normal(lower, name)
    ensures NormalizeBy(lower, name) == name
  {
    assert TrimRight(TrimLeft(name)) == name;
    assert Mapped(name, lower) == name;
  }
}

/** The S3 name given to a bucket whose template sets none (cfn/naming.go). */
module BucketName {
  import B = Base36

  const MaxBucketNameLen: nat := 63
  const BucketSuffixLen: nat := 12
  const Room: nat := MaxBucketNameLen - 1 - BucketSuffixLen
  const Half: nat := (Room - 1) / 2

  predicate NameChar(c: char) {
    B.IsDigit(c) || c == '-'
  }

  predicate NameChars(s: string) {
    forall k :: 0 <= k < |s| ==> NameChar(s[k])
  }

  /** Begins and ends with a letter or digit. */
  predicate FirmEnds(s: string) {
    s != [] && B.IsDigit(s[0]) && B.IsDigit(s[|s| - 1])
  }

  /** What `k8sName` returns: lowercase letters, digits and hyphens, trimmed of outer hyphens. */
  predicate KubernetesName(s: string) {
    NameChars(s) && (s != [] ==> FirmEnds(s))
  }

  predicate DoubleAt(s: string, k: nat) {
    k + 1 < |s| && s[k] == '-' && s[k + 1] == '-'
  }

  ghost predicate SingleHyphens(s: string) {
    forall k :: !DoubleAt(s, k)
  }

  // ---------------------------------------------------------------- collapseHyphens

  predicate ContainsDouble(s: string) {
    |s| >= 2 && (DoubleAt(s, 0) || ContainsDouble(s[1..]))
  }

  /** `strings.ReplaceAll(s, "--", "-")`: left to right, matches do not overlap. */
  function ReplaceDoubles(s: string): string {
    if |s| < 2 then s
    else if DoubleAt(s, 0) then "-" + ReplaceDoubles(s[2..])
    else [s[0]] + ReplaceDoubles(s[1..])
  }

  /** Every run of hyphens as one: a hyphen followed by another is dropped. */
  function Squeeze(s: string): string {
    if |s| < 2 then s
    else if DoubleAt(s, 0) then Squeeze(s[1..])
    else [s[0]] + Squeeze(s[1..])
  }

  lemma {:induction false} ContainsDoubleIff(s: string)
    ensures ContainsDouble(s) <==> !SingleHyphens(s)
  {
    if |s| >= 2 {
      ContainsDoubleIff(s[1..]);
      if k: nat :| DoubleAt(s, k) && k > 0 {
        assert DoubleAt(s[1..], k - 1);
      }
      if k: nat :| DoubleAt(s[1..], k) {
        assert DoubleAt(s, k + 1);
      }
    }
  }

  lemma {:induction false} ReplaceShrinks(s: string)
    ensures |ReplaceDoubles(s)| <= |s|
    ensures ContainsDouble(s) ==> |ReplaceDoubles(s)| < |s|
  {
    if |s| >= 2 {
      if DoubleAt(s, 0) {
        ReplaceShrinks(s[2..]);
      } else {
        ReplaceShrinks(s[1..]);
      }
    }
  }

  lemma {:induction false} SqueezeUnderHead(c: char, s: string)
    ensures Squeeze([c] + s) == Squeeze([c] + Squeeze(s))
    ensures Squeeze(Squeeze(s)) == Squeeze(s)
    ensures s != [] ==> Squeeze(s) != [] && Squeeze(s)[0] == s[0]
    decreases |s|
  {
    if |s| >= 2 {
      SqueezeUnderHead(s[0], s[1..]);
      assert [s[0]] + s[1..] == s;
    }
    assert ([c] + s)[1..] == s && ([c] + Squeeze(s))[1..] == Squeeze(s);
  }

  /** One replacing pass leaves the squeezed form alone. */
  lemma {:induction false} PassKeepsSqueezed(s: string)
    ensures Squeeze(ReplaceDoubles(s)) == Squeeze(s)
  {
    if |s| >= 2 {
      if DoubleAt(s, 0) {
        var t := s[2..];
        PassKeepsSqueezed(t);
        SqueezeUnderHead('-', t);
        SqueezeUnderHead('-', ReplaceDoubles(t));
        assert s[1..] == ['-'] + t;
      } else {
        var t := s[1..];
        PassKeepsSqueezed(t);
        SqueezeUnderHead(s[0], t);
        SqueezeUnderHead(s[0], ReplaceDoubles(t));
        assert s == [s[0]] + t;
      }
    }
  }

  lemma {:induction false} SqueezedIsFixed(s: string)
    requires !ContainsDouble(s)
    ensures Squeeze(s) == s
  {
    if |s| >= 2 {
      SqueezedIsFixed(s[1..]);
    }
  }

  lemma {:induction false} SqueezeKeepsShape(s: string)
    ensures NameChars(s) ==> NameChars(Squeeze(s))
    ensures s != [] ==> Squeeze(s) != [] && Squeeze(s)[0] == s[0] && Squeeze(s)[|Squeeze(s)| - 1] == s[|s| - 1]
  {
    if |s| >= 2 {
      SqueezeKeepsShape(s[1..]);
    }
  }

  /** `collapseHyphens`: however often the pass has to run, it ends with the runs squeezed. */
  method CollapseHyphens(given: string) returns (s: string)
    ensures s == Squeeze(given)
    ensures SingleHyphens(s)
  {
    s := given;
    while ContainsDouble(s)
      invariant Squeeze(s) == Squeeze(given)
      decreases |s|
    {
      PassKeepsSqueezed(s);
      ReplaceShrinks(s);
      s := ReplaceDoubles(s);
    }
    SqueezedIsFixed(s);
    ContainsDoubleIff(s);
  }

  // ---------------------------------------------------------------- pieces of the name

  function TrimLeft(s: string): (r: string)
    ensures |r| <= |s| && r == s[|s| - |r|..]
    ensures r != [] ==> r[0] != '-'
  {
    if s != [] && s[0] == '-' then TrimLeft(s[1..]) else s
  }

  function TrimRight(s: string): (r: string)
    ensures |r| <= |s| && r == s[..|r|]
    ensures r != [] ==> r[|r| - 1] != '-'
  {
    if s != [] && s[|s| - 1] == '-' then TrimRight(s[..|s| - 1]) else s
  }

  /** `strings.Trim(s, "-")`. */
  function Trim(s: string): (r: string)
    ensures |r| <= |s|
    ensures r != [] ==> r[0] != '-' && r[|r| - 1] != '-'
  {
    TrimRight(TrimLeft(s))
  }

  function TrimPrefix(s: string, p: string): string {
    if p <= s then s[|p|..] else s
  }

  /** No double hyphen and only name characters. */
  ghost predicate Tidy(s: string) {
    NameChars(s) && SingleHyphens(s)
  }

  lemma SliceIsTidy(s: string, lo: nat, hi: nat)
    requires Tidy(s) && lo <= hi <= |s|
    ensures Tidy(s[lo..hi])
  {
    var t := s[lo..hi];
    forall k: nat ensures !DoubleAt(t, k) {
      assert !DoubleAt(s, lo + k);
      assert k + 1 < |t| ==> t[k] == s[lo + k] && t[k + 1] == s[lo + k + 1];
    }
  }

  lemma TrimIsTidy(s: string)
    requires Tidy(s)
    ensures Tidy(Trim(s))
    ensures Trim(s) != [] ==> FirmEnds(Trim(s))
  {
    var t := TrimLeft(s);
    SliceIsTidy(s, |s| - |t|, |s|);
    assert s[|s| - |t|..|s|] == t;
    SliceIsTidy(t, 0, |TrimRight(t)|);
    assert t[0..|TrimRight(t)|] == TrimRight(t);
  }

  lemma HyphenatedIsTidy(a: string, b: string)
    requires Tidy(a) && Tidy(b) && a != [] && a[|a| - 1] != '-' && (b != [] ==> b[0] != '-')
    ensures Tidy(a + "-" + b)
  {
    var t := a + "-" + b;
    forall k: nat ensures !DoubleAt(t, k) {
      assert !DoubleAt(a, k);
      if k > |a| {
        assert !DoubleAt(b, k - |a| - 1);
      }
    }
  }

  /** The two halves cut to fit `Room` with the hyphen between them: the longer one first. */
  function Shortened(s: string, l: string): (r: (string, string))
    ensures r.0 <= s && r.1 <= l
    ensures s != [] && |s| + 1 + |l| > Room ==> |r.0| + 1 + |r.1| == Room
    ensures s != [] && |s| + 1 + |l| <= Room ==> r == (s, l)
    ensures s != [] && |s| <= Half ==> r.0 == s
    ensures s != [] && |l| <= Half ==> r.1 == l
    ensures s != [] && |s| > Half ==> |r.0| >= Half
    ensures s != [] && |l| > Half ==> |r.1| >= Half
    ensures s == [] ==> r.1 == if |l| > Room then l[..Room] else l
  {
    if s != [] && |s| + 1 + |l| > Room then
      if |l| <= Half then (s[..Room - 1 - |l|], l)
      else if |s| <= Half then (s, l[..Room - 1 - |s|])
      else (s[..Half], l[..Room - 1 - Half])
    else if s == [] && |l| > Room then (s, l[..Room])
    else (s, l)
  }

  /** The part before the suffix, as it stands before the two prefixes are stripped. */
  function Head(stack: string, id: string): string {
    var cut := Shortened(Squeeze(stack), Squeeze(id));
    Joined(cut.0, cut.1)
  }

  function Joined(s: string, l: string): string {
    if Trim(s) != [] then Trim(Trim(s) + "-" + Trim(l)) else Trim(l)
  }

  lemma JoinedShape(s: string, l: string)
    requires Tidy(s) && Tidy(l) && |l| <= Room && (s != [] ==> |s| + 1 + |l| <= Room)
    ensures Tidy(Joined(s, l)) && |Joined(s, l)| <= Room
    ensures Joined(s, l) != [] ==> FirmEnds(Joined(s, l))
  {
    TrimIsTidy(s);
    TrimIsTidy(l);
    hide Tidy, TrimLeft, TrimRight;
    if Trim(s) != [] {
      HyphenatedIsTidy(Trim(s), Trim(l));
      TrimIsTidy(Trim(s) + "-" + Trim(l));
    }
  }

  lemma HeadShape(stack: string, id: string)
    requires KubernetesName(stack) && KubernetesName(id)
    ensures Tidy(Head(stack, id)) && |Head(stack, id)| <= Room
    ensures Head(stack, id) != [] ==> FirmEnds(Head(stack, id))
    ensures !("xn--" <= Head(stack, id))
  {
    hide Squeeze, Joined, NameChars;
    var s, l := Squeeze(stack), Squeeze(id);
    SqueezedIsTidy(stack);
    SqueezedIsTidy(id);
    var cut := Shortened(s, l);
    SliceIsTidy(s, 0, |cut.0|);
    SliceIsTidy(l, 0, |cut.1|);
    assert s[0..|cut.0|] == cut.0 && l[0..|cut.1|] == cut.1;
    JoinedShape(cut.0, cut.1);
    NoPunycode(Head(stack, id));
  }

  /** Names with nothing to squeeze and room for both are joined as they are. */
  lemma PlainHead(s: string, l: string)
    requires SingleHyphens(s) && FirmEnds(s) && SingleHyphens(l) && FirmEnds(l) && |s| + 1 + |l| <= Room
    ensures Head(s, l) == s + "-" + l
  {
    ContainsDoubleIff(s);
    ContainsDoubleIff(l);
    SqueezedIsFixed(s);
    SqueezedIsFixed(l);
    assert FirmEnds(s + "-" + l) by {
      assert (s + "-" + l)[0] == s[0] && (s + "-" + l)[|s| + 1 + |l| - 1] == l[|l| - 1];
    }
    TrimOfFirm(s);
    TrimOfFirm(l);
    TrimOfFirm(s + "-" + l);
    hide Squeeze, ContainsDouble, Trim, FirmEnds, SingleHyphens;
  }

  lemma TrimOfFirm(s: string)
    requires FirmEnds(s)
    ensures Trim(s) == s
  {}

  lemma SqueezedIsTidy(s: string)
    requires NameChars(s)
    ensures Tidy(Squeeze(s))
  {
    SqueezeKeepsShape(s);
    SqueezeHasSingles(s);
  }

  lemma {:induction false} SqueezeHasSingles(s: string)
    ensures SingleHyphens(Squeeze(s))
  {
    if |s| >= 2 {
      SqueezeHasSingles(s[1..]);
      SqueezeKeepsShape(s[1..]);
      var t := Squeeze(s[1..]);
      forall k: nat ensures !DoubleAt(Squeeze(s), k) {
        assert !DoubleAt(t, k);
        if k > 0 {
          assert !DoubleAt(t, k - 1);
        }
      }
    }
  }

  const Sthree: string := "sthree-"

  /** The heads from which stripping one `sthree-` is not enough. */
  predicate StillReserved(head: string) {
    head == "sthree" || head == "sthree-sthree" || Sthree + Sthree <= head
  }

  /** The rules for a bucket name that the engine's documentation lists, but for the reserved `sthree-`. */
  ghost predicate BucketNameRules(name: string) {
    && 3 <= |name| <= MaxBucketNameLen
    && Tidy(name)
    && FirmEnds(name)
    && !("xn--" <= name)
  }

  lemma NoPunycode(s: string)
    requires SingleHyphens(s)
    ensures !("xn--" <= s)
  {
    assert !DoubleAt(s, 2);
  }

  /** Stripping `sthree-` leaves a head that is still well formed. */
  lemma StripShape(head: string)
    requires Tidy(head) && FirmEnds(head)
    ensures Tidy(TrimPrefix(head, Sthree)) && FirmEnds(TrimPrefix(head, Sthree))
  {
    if Sthree <= head {
      SliceIsTidy(head, 7, |head|);
      assert head[6] == '-' && |head| > 7;
      assert !DoubleAt(head, 6);
      assert head[7..|head|] == TrimPrefix(head, Sthree);
    }
  }

  /** The name starts with `sthree-` exactly for the heads that had it twice, or had nothing after it. */
  lemma ReservedIff(head: string, suffix: string)
    requires Tidy(head) && FirmEnds(head) && |suffix| == BucketSuffixLen && B.AllDigits(suffix)
    ensures Sthree <= TrimPrefix(head, Sthree) + "-" + suffix <==> StillReserved(head)
  {
    var h := TrimPrefix(head, Sthree);
    var name := h + "-" + suffix;
    NamePrefix(h, suffix);
    assert Sthree + Sthree <= head ==> head[..7] == (Sthree + Sthree)[..7] == Sthree;
    if Sthree <= head {
      assert head == Sthree + h;
      if h == "sthree" {
        assert head == "sthree-sthree";
      }
      if Sthree <= h {
        assert Sthree + Sthree <= head;
      }
      if Sthree + Sthree <= head {
        assert h[..7] == head[7..14];
      }
      if head == "sthree-sthree" {
        assert h == "sthree";
      }
    }
  }

  lemma NamePrefix(h: string, suffix: string)
    requires h != [] && h[|h| - 1] != '-' && B.AllDigits(suffix) && |suffix| == BucketSuffixLen
    ensures Sthree <= h + "-" + suffix <==> h == "sthree" || Sthree <= h
  {
    var name := h + "-" + suffix;
    assert name[|h|] == '-' && Sthree[..6] == "sthree" && |name| >= 13;
    assert name[..7] == Sthree ==> forall k :: 0 <= k < 6 ==> name[k] == Sthree[k] && Sthree[k] != '-';
    assert Sthree <= name <==> name[..7] == Sthree;
    if |h| > 6 {
      assert h[..7] == name[..7];
    } else if |h| == 6 {
      assert name[..7] == h + "-";
    }
  }

  lemma NameRules(h: string, suffix: string)
    requires Tidy(h) && FirmEnds(h) && |h| <= Room && B.AllDigits(suffix) && |suffix| == BucketSuffixLen
    ensures BucketNameRules(h + "-" + suffix)
  {
    assert Tidy(suffix);
    HyphenatedIsTidy(h, suffix);
    NoPunycode(h + "-" + suffix);
  }

  /** The steps up to the head: squeeze, shorten, trim, join. */
  method JoinedHead(stack: string, id: string) returns (head: string)
    ensures head == Head(stack, id)
  {
    var s := CollapseHyphens(stack);
    var l := CollapseHyphens(id);
    hide Squeeze;
    if s != "" && |s| + 1 + |l| > Room {
      if |l| <= Half {
        s := s[..Room - 1 - |l|];
      } else if |s| <= Half {
        l := l[..Room - 1 - |s|];
      } else {
        s, l := s[..Half], l[..Room - 1 - Half];
      }
    } else if s == "" && |l| > Room {
      l := l[..Room];
    }
    assert (s, l) == Shortened(Squeeze(stack), Squeeze(id));
    hide Shortened;
    head := Trim(l);
    s := Trim(s);
    if s != "" {
      head := Trim(s + "-" + head);
    }
  }

  function Completed(head: string, suffix: string): string {
    var h := TrimPrefix(TrimPrefix(head, "xn--"), Sthree);
    if h == "" then "b-" + suffix else h + "-" + suffix
  }

  lemma CompletedShape(head: string, suffix: string)
    requires Tidy(head) && (head != [] ==> FirmEnds(head)) && |head| <= Room && !("xn--" <= head)
    requires B.AllDigits(suffix) && |suffix| == BucketSuffixLen
    ensures BucketNameRules(Completed(head, suffix))
    ensures Sthree <= Completed(head, suffix) <==> StillReserved(head)
  {
    if head == "" {
      NameRules("b", suffix);
      NamePrefix("b", suffix);
    } else {
      StripShape(head);
      NameRules(TrimPrefix(head, Sthree), suffix);
      ReservedIff(head, suffix);
    }
  }

  /** The base 36 digits of the digest. */
  predicate RenderingOf(t: string, digest: seq<B.byte>) {
    B.Canonical(t) && B.Value(t) == B.Number(digest)
  }

  /** A stack `sthree` with a bucket `sthree` gets a name the documentation says is never given. */
  lemma ReservedNameIsGiven(s: string)
    requires s == "sthree"
    ensures KubernetesName(s) && StillReserved(Head(s, s))
  {
    hide Head, Squeeze, ContainsDouble;
    assert forall k :: 0 <= k < 6 ==> B.IsDigit(s[k]);
    assert SingleHyphens(s) && FirmEnds(s);
    PlainHead(s, s);
    assert s + "-" + s == "sthree-sthree";
  }

  /** Go's slice expression panics when the rendering is shorter than the suffix. */
  datatype Outcome = Name(text: string) | SliceOutOfRange

  /**
   * `generatedBucketName`, given what `k8sName` makes of the stack name and logical id and the SHA-256
   * digest. The documentation's "never sthree-…" fails exactly for the heads in `StillReserved`.
   */
  method GeneratedBucketName(digest: array<B.byte>, stack: string, id: string) returns (r: Outcome)
    requires KubernetesName(stack) && KubernetesName(id)
    ensures r.SliceOutOfRange? <==> B.Number(digest[..]) < B.Power(BucketSuffixLen - 1)
    ensures r.Name? ==> forall t: string | RenderingOf(t, digest[..]) ::
      |t| >= BucketSuffixLen && r.text == Completed(Head(stack, id), t[..BucketSuffixLen])
    ensures r.Name? ==> BucketNameRules(r.text)
    ensures r.Name? ==> (Sthree <= r.text <==> StillReserved(Head(stack, id)))
  {
    var text := B.Base36(digest);
    B.LongEnoughIff(text, BucketSuffixLen - 1);
    if |text| < BucketSuffixLen {
      return SliceOutOfRange;
    }
    var suffix := text[..BucketSuffixLen];
    assert B.AllDigits(suffix);
    hide Head, Tidy, StillReserved, BucketNameRules, FirmEnds, B.Number, B.Value, B.Canonical, B.AllDigits, TrimPrefix;
    var head := JoinedHead(stack, id);
    HeadShape(stack, id);
    CompletedShape(head, suffix);
    head := TrimPrefix(TrimPrefix(head, "xn--"), Sthree);
    if head == "" {
      r := Name("b-" + suffix);
    } else {
      r := Name(head + "-" + suffix);
    }
  }
}

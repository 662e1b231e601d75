/** The Kubernetes name sanitizer. */
module KubernetesName {
  import opened Text
  import opened Slugs

  const FALLBACK := "jattg-executor"
  const MAX_LABEL := 63

  function DashedChar(c: char): char {
    if IsAsciiAlphanumeric(c) then ToAsciiLower(c) else '-'
  }

  function Dashed(s: string): string {
    seq(|s|, i requires 0 <= i < |s| => DashedChar(s[i]))
  }

  /** `replace("--", "-")`: occurrences are taken from the left and do not overlap. */
  function ReplaceDouble(s: string): string {
    if |s| < 2 then s
    else if s[0] == '-' && s[1] == '-' then "-" + ReplaceDouble(s[2..])
    else [s[0]] + ReplaceDouble(s[1..])
  }

  function TrimDashesStart(s: string): string {
    if s != "" && s[0] == '-' then TrimDashesStart(s[1..]) else s
  }

  function TrimDashesEnd(s: string): string {
    if s != "" && s[|s| - 1] == '-' then TrimDashesEnd(s[..|s| - 1]) else s
  }

  function TrimDashes(s: string): string {
    TrimDashesEnd(TrimDashesStart(s))
  }

  const NotDash: char -> bool := c => c != '-'

  predicate IsLabelCharacter(c: char) {
    '0' <= c <= '9' || 'a' <= c <= 'z' || c == '-'
  }

  predicate HasLabelCharacters(s: string) {
    forall i :: 0 <= i < |s| ==> IsLabelCharacter(s[i])
  }

  /** A label of RFC 1123 section 2.1, without two dashes in a row. */
  predicate IsLabel(s: string) {
    && 0 < |s| <= 63
    && HasLabelCharacters(s)
    && s[0] != '-' && s[|s| - 1] != '-'
    && !HasDouble(s, '-')
  }

  /** The words of the text in lower case, joined by single dashes and cut to the label length. */
  function Sanitized(input: string): string {
    var slug := Slug(Dashed(input), NotDash, "-");
    if slug == "" then FALLBACK
    else TrimDashes(slug[..if |slug| < MAX_LABEL then |slug| else MAX_LABEL])
  }

  /** What repeated replacement of double dashes arrives at. */
  function Collapsed(s: string): string
    decreases |s|
  {
    if HasDouble(s, '-') then
      ReplaceDoubleShrinks(s);
      Collapsed(ReplaceDouble(s))
    else s
  }

  method K8sName(input: string) returns (name: string)
    ensures name == Sanitized(input)
  {
    var value := Dashed(input);
    while HasDouble(value, '-')
      invariant Collapsed(value) == Collapsed(Dashed(input))
      decreases |value|
    {
      ReplaceDoubleShrinks(value);
      value := ReplaceDouble(value);
    }
    CollapsedSlug(Dashed(input));
    value := TrimDashes(value);
    if value == "" {
      return FALLBACK;
    }
    value := value[..if |value| < MAX_LABEL then |value| else MAX_LABEL];
    name := TrimDashes(value);
  }

  lemma FallbackIsLabel()
    ensures IsLabel(FALLBACK)
  {
  }

  lemma {:induction false} ReplaceDoubleShrinks(s: string)
    ensures |ReplaceDouble(s)| <= |s|
    ensures HasDouble(s, '-') ==> |ReplaceDouble(s)| < |s|
    ensures HasLabelCharacters(s) ==> HasLabelCharacters(ReplaceDouble(s))
  {
    if |s| >= 2 {
      if s[0] == '-' && s[1] == '-' {
        ReplaceDoubleShrinks(s[2..]);
      } else {
        ReplaceDoubleShrinks(s[1..]);
        if HasDouble(s, '-') {
          var i :| 0 <= i < |s| - 1 && DoubleAt(s, i, '-');
          assert i > 0;
          assert DoubleAt(s[1..], i - 1, '-');
        }
      }
    }
  }

  lemma DoubleDash(a: string, b: string)
    ensures Words(a + "--" + b, NotDash) == Words(a + "-" + b, NotDash)
  {
    WordsAroundSeparator(a, '-', b, NotDash);
    WordsAroundSeparator(a + "-", '-', b, NotDash);
    WordsAppend(a, '-', NotDash);
    assert a + "-" + ['-'] + b == a + "--" + b;
    assert a + ['-'] + b == a + "-" + b;
    assert a + "-" == a + ['-'];
  }

  lemma {:induction false} ReplaceDoubleKeepsWords(before: string, s: string)
    ensures Words(before + ReplaceDouble(s), NotDash) == Words(before + s, NotDash)
    decreases |s|
  {
    if |s| >= 2 {
      if s[0] == '-' && s[1] == '-' {
        ReplaceDoubleKeepsWords(before + "-", s[2..]);
        DoubleDash(before, s[2..]);
        assert before + "--" + s[2..] == before + s;
        ConcatAssociative(before, "-", ReplaceDouble(s[2..]));
      } else {
        ReplaceDoubleKeepsWords(before + [s[0]], s[1..]);
        assert before + [s[0]] + s[1..] == before + s;
        ConcatAssociative(before, [s[0]], ReplaceDouble(s[1..]));
      }
    }
  }

  function LeadingDash(s: string): string {
    if s != "" && s[0] == '-' then "-" else ""
  }

  function TrailingDash(s: string): string {
    if s != "" && s[|s| - 1] == '-' && Words(s, NotDash) != [] then "-" else ""
  }

  predicate IsFramedSlug(s: string) {
    s == LeadingDash(s) + Slug(s, NotDash, "-") + TrailingDash(s)
  }

  lemma SlugAppend(s: string, c: char)
    ensures Slug(s + [c], NotDash, "-") ==
      var slug := Slug(s, NotDash, "-");
      if c == '-' then slug
      else if s != "" && s[|s| - 1] != '-' then slug + [c]
      else if slug == "" then [c]
      else slug + "-" + [c]
    ensures Words(s + [c], NotDash) == [] <==> Words(s, NotDash) == [] && c == '-'
  {
    var t, n := s + [c], |s|;
    assert t[..n] == s && t[..n + 1] == t;
    SlugStep(t, n, NotDash, "-");
    WordsStep(t, n, NotDash);
    SlugEnds(s, NotDash, "-");
    if n > 0 {
      assert t[n - 1] == s[n - 1];
    }
  }

  lemma FramedSlugStep(s: string, c: char)
    requires IsFramedSlug(s) && !(s != "" && s[|s| - 1] == '-' && c == '-')
    ensures IsFramedSlug(s + [c])
  {
    var t, slug := s + [c], Slug(s, NotDash, "-");
    SlugAppend(s, c);
    SlugEnds(s, NotDash, "-");
    WordsProperties(s, NotDash);
    if s == "" {
      assert Words(s, NotDash) == [] && slug == "";
      assert t == [c];
    } else {
      assert t[0] == s[0];
      assert LeadingDash(t) == LeadingDash(s);
      if c == '-' {
        assert TrailingDash(s) == "" && TrailingDash(t) == "-";
        assert s == LeadingDash(s) + slug;
      } else if s[|s| - 1] != '-' {
        assert TrailingDash(s) == "" && TrailingDash(t) == "";
        ConcatAssociative(LeadingDash(s), slug, [c]);
      } else if slug == "" {
        assert TrailingDash(s) == "" && TrailingDash(t) == "";
        assert s == LeadingDash(s);
      } else {
        assert TrailingDash(s) == "-" && TrailingDash(t) == "";
        ConcatAssociative(LeadingDash(s), slug + "-", [c]);
        ConcatAssociative(LeadingDash(s), slug, "-");
      }
    }
  }

  /** Without two dashes in a row, a text is its slug up to a dash at either end. */
  lemma {:induction false} SingleDashes(s: string)
    requires !HasDouble(s, '-')
    ensures IsFramedSlug(s)
  {
    if s == "" {
      NothingIsFramed();
    } else {
      var init, last := s[..|s| - 1], s[|s| - 1];
      NoDoubleBefore(s);
      SingleDashes(init);
      FramedSlugStep(init, last);
      assert s == init + [last];
    }
  }

  lemma NothingIsFramed()
    ensures IsFramedSlug("")
  {
  }

  lemma NoDoubleBefore(s: string)
    requires !HasDouble(s, '-') && s != ""
    ensures var init := s[..|s| - 1];
      !HasDouble(init, '-') && !(init != "" && init[|init| - 1] == '-' && s[|s| - 1] == '-')
  {
    var init := s[..|s| - 1];
    assert !DoubleAt(s, |s| - 2, '-');
    assert forall i :: DoubleAt(init, i, '-') ==> DoubleAt(s, i, '-');
  }

  lemma TrimLead(lead: string, body: string)
    requires (lead == "" || lead == "-") && body != "" && body[0] != '-'
    ensures TrimDashesStart(lead + body) == body
  {
    assert (lead + body)[|lead|..] == body;
    assert lead == "" ==> lead + body == body;
  }

  lemma TrimTrail(body: string, trail: string)
    requires (trail == "" || trail == "-") && body != "" && body[|body| - 1] != '-'
    ensures TrimDashesEnd(body + trail) == body
  {
    assert (body + trail)[..|body|] == body;
    assert trail == "" ==> body + trail == body;
  }

  lemma TrimFramed(lead: string, slug: string, trail: string)
    requires lead == "" || lead == "-"
    requires trail == "" || trail == "-"
    requires slug != "" && slug[0] != '-' && slug[|slug| - 1] != '-'
    ensures TrimDashes(lead + slug + trail) == slug
  {
    ConcatAssociative(lead, slug, trail);
    TrimLead(lead, slug + trail);
    TrimTrail(slug, trail);
  }

  lemma TrimmedSlug(s: string)
    requires !HasDouble(s, '-') && HasLabelCharacters(s)
    ensures TrimDashes(s) == Slug(s, NotDash, "-")
    ensures !HasDouble(TrimDashes(s), '-') && HasLabelCharacters(TrimDashes(s))
  {
    SingleDashes(s);
    var slug := Slug(s, NotDash, "-");
    SlugEnds(s, NotDash, "-");
    if slug == "" {
      assert TrailingDash(s) == "";
      assert s == LeadingDash(s);
    } else {
      TrimFramed(LeadingDash(s), slug, TrailingDash(s));
      MiddleIsClean(LeadingDash(s), slug, TrailingDash(s));
    }
  }

  lemma MiddleIsClean(a: string, b: string, c: string)
    requires !HasDouble(a + b + c, '-') && HasLabelCharacters(a + b + c)
    ensures !HasDouble(b, '-') && HasLabelCharacters(b)
  {
    var s, d := a + b + c, |a|;
    assert forall i :: 0 <= i < |b| ==> b[i] == s[d + i];
    forall i | 0 <= i < |b| - 1 ensures !DoubleAt(b, i, '-') {
      assert !DoubleAt(s, d + i, '-');
    }
  }

  lemma PrefixHasNoDouble(s: string, n: nat)
    requires !HasDouble(s, '-') && n <= |s|
    ensures !HasDouble(s[..n], '-')
  {
    forall i | 0 <= i < n - 1 ensures !DoubleAt(s[..n], i, '-') {
      assert !DoubleAt(s, i, '-');
    }
  }

  /** Cutting a dash-free-ended text to the label length and trimming it gives a label. */
  lemma CutIsLabel(s: string)
    requires s != "" && s[0] != '-' && s[|s| - 1] != '-' && !HasDouble(s, '-') && HasLabelCharacters(s)
    ensures IsLabel(TrimDashes(s[..if |s| < MAX_LABEL then |s| else MAX_LABEL]))
  {
    var n := if |s| < MAX_LABEL then |s| else MAX_LABEL;
    var cut := s[..n];
    assert TrimDashesStart(cut) == cut;
    if cut[n - 1] == '-' {
      assert !DoubleAt(s, n - 2, '-');
      assert cut[..n - 1] == s[..n - 1];
      assert TrimDashesEnd(cut) == s[..n - 1];
      PrefixHasNoDouble(s, n - 1);
    } else {
      assert TrimDashesEnd(cut) == cut;
      PrefixHasNoDouble(s, n);
    }
  }

  lemma {:induction false} CollapsedProperties(s: string)
    ensures !HasDouble(Collapsed(s), '-')
    ensures Words(Collapsed(s), NotDash) == Words(s, NotDash)
    ensures HasLabelCharacters(s) ==> HasLabelCharacters(Collapsed(s))
    decreases |s|
  {
    if HasDouble(s, '-') {
      ReplaceDoubleShrinks(s);
      ReplaceDoubleKeepsWords("", s);
      assert "" + s == s && "" + ReplaceDouble(s) == ReplaceDouble(s);
      CollapsedProperties(ReplaceDouble(s));
    }
  }

  lemma CollapsedSlug(s: string)
    requires HasLabelCharacters(s)
    ensures TrimDashes(Collapsed(s)) == Slug(s, NotDash, "-")
    ensures !HasDouble(Slug(s, NotDash, "-"), '-') && HasLabelCharacters(Slug(s, NotDash, "-"))
  {
    CollapsedProperties(s);
    TrimmedSlug(Collapsed(s));
  }

  /** Every text becomes a label. */
  lemma SanitizedIsLabel(input: string)
    ensures IsLabel(Sanitized(input))
  {
    CollapsedSlug(Dashed(input));
    var slug := Slug(Dashed(input), NotDash, "-");
    SlugEnds(Dashed(input), NotDash, "-");
    if slug != "" {
      CutIsLabel(slug);
    } else {
      FallbackIsLabel();
    }
  }

  lemma LabelIsUnchanged(s: string)
    requires IsLabel(s)
    ensures Sanitized(s) == s
  {
    assert Dashed(s) == s;
    TidyIsSlug(s, '-', NotDash);
    assert s[..|s|] == s;
    NothingToTrim(s);
  }

  lemma NothingToTrim(s: string)
    requires s != "" && s[0] != '-' && s[|s| - 1] != '-'
    ensures TrimDashes(s) == s
  {
  }

  /** The sanitizer leaves exactly the labels unchanged; so a second pass changes nothing. */
  lemma LabelsAreTheFixpoints(s: string)
    ensures Sanitized(s) == s <==> IsLabel(s)
    ensures Sanitized(Sanitized(s)) == Sanitized(s)
  {
    SanitizedIsLabel(s);
    LabelIsUnchanged(Sanitized(s));
    if IsLabel(s) {
      LabelIsUnchanged(s);
    }
  }

  // ---------------------------------------------------------------------------------------------
  // Character by character
  // ---------------------------------------------------------------------------------------------

  /** An ASCII letter or digit and its lower-case form. */
  predicate IsLowered(c: char, lowered: char) {
    || (('0' <= c <= '9' || 'a' <= c <= 'z') && lowered == c)
    || ('A' <= c <= 'Z' && lowered as int == c as int + 32)
  }

  predicate IsSeparator(c: char) {
    !('0' <= c <= '9') && !('a' <= c <= 'z') && !('A' <= c <= 'Z')
  }

  /** Letters and digits are kept in lower case, every other character separates words. */
  lemma DashedCharacters(s: string)
    ensures |Dashed(s)| == |s|
    ensures forall i :: 0 <= i < |s| ==>
      if IsSeparator(s[i]) then Dashed(s)[i] == '-' else IsLowered(s[i], Dashed(s)[i])
  {
  }

  /** A text of up to 63 letters and digits keeps all of them. */
  lemma PlainNameIsLowered(s: string)
    requires 0 < |s| <= 63 && forall i :: 0 <= i < |s| ==> !IsSeparator(s[i])
    ensures |Sanitized(s)| == |s| && forall i :: 0 <= i < |s| ==> IsLowered(s[i], Sanitized(s)[i])
  {
    var dashed := Dashed(s);
    DashedCharacters(s);
    assert forall i :: 0 <= i < |s| ==> NotDash(dashed[i]);
    TidyIsSlug(dashed, '-', NotDash);
    assert dashed[..|s|] == dashed;
  }

  lemma {:induction false} NoWords(s: string)
    requires forall i :: 0 <= i < |s| ==> s[i] == '-'
    ensures Words(s, NotDash) == []
  {
    if s != "" {
      NoWords(s[..|s| - 1]);
    }
  }

  /** A text without letters and digits gets the fallback name. */
  lemma WithoutWordsIsFallback(s: string)
    requires forall i :: 0 <= i < |s| ==> IsSeparator(s[i])
    ensures Sanitized(s) == "jattg-executor"
  {
    DashedCharacters(s);
    NoWords(Dashed(s));
  }
}

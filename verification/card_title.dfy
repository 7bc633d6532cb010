/** The titles of the media and article cards: HTML tags stripped with `/<[^>]+>/g`, then
    entities decoded; a title in Arabic script is right-aligned. */
module CardTitle {

  predicate NoLt(s: string) {
    forall i :: 0 <= i < |s| ==> s[i] != '<'
  }

  predicate NoGt(s: string) {
    forall i :: 0 <= i < |s| ==> s[i] != '>'
  }

  /** The length of the longest prefix of `s` without a `>`. */
  function UntilGt(s: string): (n: nat)
    ensures n <= |s|
    ensures forall i :: 0 <= i < n ==> s[i] != '>'
    ensures n == |s| || s[n] == '>'
  {
    if |s| == 0 || s[0] == '>' then 0 else 1 + UntilGt(s[1..])
  }

  lemma {:induction false} UntilGtOf(u: string, rest: string)
    requires NoGt(u) && (rest == [] || rest[0] == '>')
    ensures UntilGt(u + rest) == |u|
  {
    if |u| > 0 {
      assert (u + rest)[1..] == u[1..] + rest;
      UntilGtOf(u[1..], rest);
    } else {
      assert u + rest == rest;
    }
  }

  /** `<[^>]+>` matches at the start of `s`: a `<`, at least one character that is not
      `>`, then the first `>`. */
  predicate TagAtHead(s: string) {
    |s| > 0 && s[0] == '<' && 2 <= UntilGt(s) < |s|
  }

  /** `/<[^>]+>/` matches nowhere in `s`. */
  predicate NoTag(s: string) {
    forall i :: 0 <= i < |s| ==> !TagAtHead(s[i..])
  }

  /** `s.replace(/<[^>]+>/g, '')`: scanning left to right, every match is removed and the
      scan goes on after it. */
  function StripTags(s: string): string
    decreases |s|
  {
    if |s| == 0 then ""
    else if TagAtHead(s) then StripTags(s[UntilGt(s) + 1..])
    else [s[0]] + StripTags(s[1..])
  }

  /** Text without a `>` holds no tag and is kept. */
  lemma {:induction false} StripWithoutGt(s: string)
    requires NoGt(s)
    ensures StripTags(s) == s
  {
    if |s| > 0 {
      StripWithoutGt(s[1..]);
      assert [s[0]] + s[1..] == s;
    }
  }

  /** Text without a `<` is kept. */
  lemma {:induction false} StripWithoutLt(s: string)
    requires NoLt(s)
    ensures StripTags(s) == s
  {
    if |s| > 0 {
      StripWithoutLt(s[1..]);
      assert [s[0]] + s[1..] == s;
    }
  }

  /** Text before the first `<` passes through. */
  lemma {:induction false} StripPlainPrefix(p: string, q: string)
    requires NoLt(p)
    ensures StripTags(p + q) == p + StripTags(q)
  {
    if |p| > 0 {
      assert (p + q)[1..] == p[1..] + q;
      StripPlainPrefix(p[1..], q);
      assert [p[0]] + (p[1..] + StripTags(q)) == p + StripTags(q);
    } else {
      assert p + q == q;
    }
  }

  /** A tag is removed whole, and nothing else is. */
  lemma StripTagRemoved(p: string, x: string, q: string)
    requires NoLt(p) && |x| > 0 && NoGt(x)
    ensures StripTags(p + ("<" + x + ">") + q) == p + StripTags(q)
  {
    var t := "<" + x + ">" + q;
    assert p + ("<" + x + ">") + q == p + t;
    StripPlainPrefix(p, t);
    OpenTag(x, q);
  }

  /** In `<x>q`, the first `>` closes the tag and `q` follows it. */
  lemma OpenTag(x: string, q: string)
    requires |x| > 0 && NoGt(x)
    ensures var t := "<" + x + ">" + q;
            UntilGt(t) == |x| + 1 && t[|x| + 2..] == q
  {
    var u := "<" + x;
    forall i | 0 <= i < |u|
      ensures u[i] != '>'
    {
      if i > 0 {
        assert u[i] == x[i - 1];
      }
    }
    assert "<" + x + ">" + q == u + (">" + q);
    UntilGtOf(u, ">" + q);
  }

  /** `<>` is not a tag: the pattern needs a character between the brackets. */
  lemma EmptyBracketsKept(p: string, q: string)
    requires NoLt(p)
    ensures StripTags(p + "<>" + q) == p + "<>" + StripTags(q)
  {
    var t := "<>" + q;
    assert p + "<>" + q == p + t;
    StripPlainPrefix(p, t);
    assert UntilGt(t) == 1;
    assert t[1..] == ">" + q && (">" + q)[1..] == q;
  }

  /** A `<` with no `>` after it is kept, and so is the rest of the title. */
  lemma UnclosedKept(p: string, x: string)
    requires NoLt(p) && NoGt(x)
    ensures StripTags(p + "<" + x) == p + "<" + x
  {
    assert p + "<" + x == p + ("<" + x);
    StripPlainPrefix(p, "<" + x);
    StripWithoutGt("<" + x);
  }

  /** No match of the pattern is left in the stripped title: every `<` that remains is
      directly followed by `>` or has no `>` after it. */
  lemma {:induction false} StripLeavesNoTag(s: string)
    ensures NoTag(StripTags(s))
    decreases |s|
  {
    if |s| > 0 {
      if TagAtHead(s) {
        StripLeavesNoTag(s[UntilGt(s) + 1..]);
      } else {
        StripLeavesNoTag(s[1..]);
        var rest := StripTags(s[1..]);
        var r := [s[0]] + rest;
        assert r == StripTags(s);
        forall i | 0 <= i < |r|
          ensures !TagAtHead(r[i..])
        {
          if i == 0 {
            HeadNotTag(s);
          } else {
            assert r[i..] == rest[i - 1..];
          }
        }
      }
    }
  }

  /** A `<` that does not open a tag is not the start of one after stripping either. */
  lemma HeadNotTag(s: string)
    requires |s| > 0 && !TagAtHead(s)
    ensures !TagAtHead([s[0]] + StripTags(s[1..]))
  {
    var r := [s[0]] + StripTags(s[1..]);
    if s[0] == '<' {
      if UntilGt(s) == |s| {
        assert NoGt(s[1..]);
        StripWithoutGt(s[1..]);
        assert r == s;
      } else {
        assert s[1] == '>';
        assert StripTags(s[1..]) == [s[1]] + StripTags(s[2..]);
        assert r[1] == '>';
      }
    }
  }

  /** A title with no match is left alone. */
  lemma {:induction false} NoTagKept(s: string)
    requires NoTag(s)
    ensures StripTags(s) == s
  {
    if |s| > 0 {
      assert s[0..] == s;
      forall i | 0 <= i < |s[1..]|
        ensures !TagAtHead(s[1..][i..])
      {
        assert s[1..][i..] == s[i + 1..];
      }
      NoTagKept(s[1..]);
      assert [s[0]] + s[1..] == s;
    }
  }

  /** Stripping changes a title exactly when the pattern matches somewhere in it, and a
      second strip changes nothing. */
  lemma StripFixedPoints(s: string)
    ensures StripTags(s) == s <==> NoTag(s)
    ensures StripTags(StripTags(s)) == StripTags(s)
  {
    StripLeavesNoTag(s);
    NoTagKept(StripTags(s));
    if NoTag(s) {
      NoTagKept(s);
    }
  }

  // ------------------------------------------------------------------
  // Decoding and alignment
  // ------------------------------------------------------------------

  /** The Arabic block, U+0600 to U+06FF. */
  predicate IsArabic(c: char) {
    '\U{0600}' <= c <= '\U{06FF}'
  }

  /** `/[\u0600-\u06FF]/.test(s)`. */
  function ContainsArabic(s: string): (b: bool)
    ensures b <==> exists i :: 0 <= i < |s| && IsArabic(s[i])
  {
    if |s| == 0 then false
    else if IsArabic(s[0]) then true
    else
      var b := ContainsArabic(s[1..]);
      assert (exists i :: 0 <= i < |s[1..]| && IsArabic(s[1..][i])) <==>
             (exists i :: 0 <= i < |s| && IsArabic(s[i]));
      b
  }

  /** `decode(title.replace(/<[^>]+>/g, ''))`, with html-entities' `decode` as a
      parameter. */
  function CleanTitle(title: string, decode: string -> string): string {
    decode(StripTags(title))
  }

  datatype Align = Left | Right

  /** `text-right` for a title in Arabic script, `text-left` otherwise. */
  function TitleAlign(title: string, decode: string -> string): (a: Align)
    ensures a == Right <==> exists i :: 0 <= i < |CleanTitle(title, decode)| && IsArabic(CleanTitle(title, decode)[i])
    ensures a == Left <==> !ContainsArabic(CleanTitle(title, decode))
  {
    if ContainsArabic(CleanTitle(title, decode)) then Right else Left
  }

  /** Tags are stripped before entities are decoded, so an encoded tag such as
      `&lt;b&gt;` reaches `decode` untouched. */
  lemma EncodedTagNotStripped(x: string, t: string, decode: string -> string)
    requires NoLt(x)
    ensures CleanTitle("&lt;" + x + "&gt;" + t, decode) == decode("&lt;" + x + "&gt;" + StripTags(t))
  {
    var p := "&lt;" + x + "&gt;";
    assert NoLt(p);
    StripPlainPrefix(p, t);
  }
}

/** The announcement card's title: `title.replace(/<\/?[^>]+(>|$)/g, "")`, which also
    removes an unclosed tag through to the end of the title. */
module AnnouncementTitle {
  import opened CardTitle

  /** `<\/?[^>]+(>|$)` matches at the start of `s`: a `<` followed by at least one
      character that is not `>`. The optional `/` is itself such a character, so it does
      not change where the match ends. */
  predicate MarkupAtHead(s: string) {
    |s| > 0 && s[0] == '<' && 2 <= UntilGt(s)
  }

  /** The removal, left to right: a match runs through the first `>`, or to the end of
      the title when there is none. */
  function StripMarkup(s: string): string
    decreases |s|
  {
    if |s| == 0 then ""
    else if MarkupAtHead(s) then (if UntilGt(s) < |s| then StripMarkup(s[UntilGt(s) + 1..]) else "")
    else [s[0]] + StripMarkup(s[1..])
  }

  /** The pattern matches nowhere: every `<` is the last character or is followed by `>`. */
  predicate NoMarkup(s: string) {
    forall i :: 0 <= i < |s| ==> !MarkupAtHead(s[i..])
  }

  /** Text before the first `<` passes through. */
  lemma {:induction false} MarkupPlainPrefix(p: string, q: string)
    requires NoLt(p)
    ensures StripMarkup(p + q) == p + StripMarkup(q)
  {
    if |p| > 0 {
      assert (p + q)[1..] == p[1..] + q;
      MarkupPlainPrefix(p[1..], q);
      assert [p[0]] + (p[1..] + StripMarkup(q)) == p + StripMarkup(q);
    } else {
      assert p + q == q;
    }
  }

  /** A title without `<` is unchanged. */
  lemma WithoutLtKept(s: string)
    requires NoLt(s)
    ensures StripMarkup(s) == s
  {
    MarkupPlainPrefix(s, []);
    assert s + [] == s;
  }

  /** A closed tag, opening (`<b>`) or closing (`</b>`, where `x` starts with `/`), is
      removed whole. */
  lemma ClosedTagRemoved(p: string, x: string, q: string)
    requires NoLt(p) && |x| > 0 && NoGt(x)
    ensures StripMarkup(p + ("<" + x + ">") + q) == p + StripMarkup(q)
  {
    var t := "<" + x + ">" + q;
    assert p + ("<" + x + ">") + q == p + t;
    MarkupPlainPrefix(p, t);
    OpenTag(x, q);
  }

  /** An unclosed tag with at least one character after the `<` is removed through to
      the end of the title. */
  lemma UnclosedRemoved(p: string, x: string)
    requires NoLt(p) && |x| > 0 && NoGt(x)
    ensures StripMarkup(p + "<" + x) == p
  {
    assert p + "<" + x == p + ("<" + x);
    MarkupPlainPrefix(p, "<" + x);
    UntilGtOf("<" + x, []);
    assert ("<" + x) + [] == "<" + x;
    assert p + [] == p;
  }

  /** `<>` survives: the pattern needs a character between the brackets. */
  lemma EmptyBracketsSurvive(p: string, q: string)
    requires NoLt(p)
    ensures StripMarkup(p + "<>" + q) == p + "<>" + StripMarkup(q)
  {
    var t := "<>" + q;
    assert p + "<>" + q == p + t;
    MarkupPlainPrefix(p, t);
    assert UntilGt(t) == 1;
    assert t[1..] == ">" + q && (">" + q)[1..] == q;
  }

  /** The two patterns differ only on an unclosed tag: the cards keep it, the
      announcement card drops it. */
  lemma UnclosedTagDiffers(p: string, x: string)
    requires NoLt(p) && |x| > 0 && NoGt(x)
    ensures StripTags(p + "<" + x) == p + "<" + x
    ensures StripMarkup(p + "<" + x) == p
  {
    UnclosedKept(p, x);
    UnclosedRemoved(p, x);
  }

  /** No match is left after the removal. */
  lemma {:induction false} StripLeavesNoMarkup(s: string)
    ensures NoMarkup(StripMarkup(s))
    decreases |s|
  {
    if |s| > 0 {
      if MarkupAtHead(s) {
        if UntilGt(s) < |s| {
          StripLeavesNoMarkup(s[UntilGt(s) + 1..]);
        }
      } else {
        StripLeavesNoMarkup(s[1..]);
        var rest := StripMarkup(s[1..]);
        var r := [s[0]] + rest;
        forall i | 0 <= i < |r|
          ensures !MarkupAtHead(r[i..])
        {
          if i == 0 {
            if s[0] == '<' {
              if |s| > 1 {
                assert s[1] == '>';
                assert rest == [s[1]] + StripMarkup(s[2..]);
                assert r[1] == '>';
              } else {
                assert r == s;
              }
            }
          } else {
            assert r[i..] == rest[i - 1..];
          }
        }
      }
    }
  }

  /** A title with no match is left alone. */
  lemma {:induction false} NoMarkupKept(s: string)
    requires NoMarkup(s)
    ensures StripMarkup(s) == s
  {
    if |s| > 0 {
      assert s[0..] == s;
      forall i | 0 <= i < |s[1..]|
        ensures !MarkupAtHead(s[1..][i..])
      {
        assert s[1..][i..] == s[i + 1..];
      }
      NoMarkupKept(s[1..]);
      assert [s[0]] + s[1..] == s;
    }
  }

  /** The removal changes a title exactly when the pattern matches in it, and a second
      removal changes nothing. */
  lemma MarkupFixedPoints(s: string)
    ensures StripMarkup(s) == s <==> NoMarkup(s)
    ensures StripMarkup(StripMarkup(s)) == StripMarkup(s)
  {
    StripLeavesNoMarkup(s);
    NoMarkupKept(StripMarkup(s));
    if NoMarkup(s) {
      NoMarkupKept(s);
    }
  }
}

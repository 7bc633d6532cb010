/** The home screen's verse of the day: one verse from a Bible search, cut to its first
    two sentences and cached for an hour. */
module DailyVerse {
  import opened Maybe
  import opened JsText
  import opened Json
  import opened Storage

  const StorageKey := "dailyVerseCache"
  const DateKey := "dailyVerseDate"
  /** One hour, in milliseconds. */
  const TtlMs := 1000 * 60 * 60

  // ------------------------------------------------------------------
  // splitSentences: "/[^.!?]+[.!?]+/g", each match trimmed
  // ------------------------------------------------------------------

  predicate IsTerminator(c: char) {
    c == '.' || c == '!' || c == '?'
  }

  predicate NoTerminator(s: string) {
    forall i :: 0 <= i < |s| ==> !IsTerminator(s[i])
  }

  predicate AllTerminators(s: string) {
    forall i :: 0 <= i < |s| ==> IsTerminator(s[i])
  }

  /** The length of the longest prefix of `s` matched by `[^.!?]*`. */
  function NonTermRun(s: string): (n: nat)
    ensures n <= |s|
    ensures forall i :: 0 <= i < n ==> !IsTerminator(s[i])
    ensures n == |s| || IsTerminator(s[n])
  {
    if |s| == 0 || IsTerminator(s[0]) then 0 else 1 + NonTermRun(s[1..])
  }

  /** The length of the longest prefix of `s` matched by `[.!?]*`. */
  function TermRun(s: string): (n: nat)
    ensures n <= |s|
    ensures forall i :: 0 <= i < n ==> IsTerminator(s[i])
    ensures n == |s| || !IsTerminator(s[n])
  {
    if |s| == 0 || !IsTerminator(s[0]) then 0 else 1 + TermRun(s[1..])
  }

  /** `s.match(/[^.!?]+[.!?]+/g)`, with the empty list for `null`. A match can only start
      at a non-terminator whose run of non-terminators is followed by a terminator; it
      then takes that run and the whole run of terminators after it. */
  function Matches(s: string): seq<string>
    decreases |s|
  {
    if |s| == 0 then []
    else if IsTerminator(s[0]) then Matches(s[1..])
    else
      var n := NonTermRun(s);
      if n == |s| then []
      else
        var k := n + TermRun(s[n..]);
        [s[..k]] + Matches(s[k..])
  }

  /** `splitSentences(p)`: the trimmed matches, or `[p]` itself when nothing matches. */
  function SplitSentences(p: string): seq<string> {
    var ms := Matches(p);
    if |ms| == 0 then [p] else seq(|ms|, i requires 0 <= i < |ms| => Trim(ms[i]))
  }

  /** `.slice(0, 2)`. */
  function TakeTwo(ss: seq<string>): (r: seq<string>)
    ensures |r| == if |ss| < 2 then |ss| else 2
    ensures r == ss[..|r|]
  {
    if |ss| < 2 then ss else ss[..2]
  }

  function Concat(ss: seq<string>): string {
    if |ss| == 0 then "" else ss[0] + Concat(ss[1..])
  }

  /** Somewhere in `s` a non-terminator is directly followed by a terminator. */
  predicate HasSentenceEnd(s: string) {
    exists i :: 0 <= i < |s| - 1 && !IsTerminator(s[i]) && IsTerminator(s[i + 1])
  }

  /** A match is a run of non-terminators followed by a run of terminators. */
  predicate SentenceShape(m: string) {
    var n := NonTermRun(m);
    0 < n < |m| && AllTerminators(m[n..])
  }

  lemma {:induction false} MatchFound(s: string)
    requires Matches(s) != []
    ensures HasSentenceEnd(s)
    decreases |s|
  {
    if IsTerminator(s[0]) {
      MatchFound(s[1..]);
      var i :| 0 <= i < |s[1..]| - 1 && !IsTerminator(s[1..][i]) && IsTerminator(s[1..][i + 1]);
      assert !IsTerminator(s[i + 1]) && IsTerminator(s[i + 2]);
    } else {
      var n := NonTermRun(s);
      assert !IsTerminator(s[n - 1]) && IsTerminator(s[n]);
    }
  }

  lemma {:induction false} EndFound(s: string, i: nat)
    requires i < |s| - 1 && !IsTerminator(s[i]) && IsTerminator(s[i + 1])
    ensures Matches(s) != []
    decreases |s|
  {
    if IsTerminator(s[0]) {
      assert s[1..][i - 1] == s[i] && s[1..][i] == s[i + 1];
      EndFound(s[1..], i - 1);
    } else {
      assert NonTermRun(s) <= i + 1;
    }
  }

  /** The regex matches nothing exactly when no non-terminator is directly followed by a
      terminator; then `splitSentences` returns its input untrimmed. */
  lemma NoMatchIff(p: string)
    ensures Matches(p) == [] <==> !HasSentenceEnd(p)
    ensures !HasSentenceEnd(p) ==> SplitSentences(p) == [p]
  {
    if Matches(p) != [] {
      MatchFound(p);
    }
    if HasSentenceEnd(p) {
      var i :| 0 <= i < |p| - 1 && !IsTerminator(p[i]) && IsTerminator(p[i + 1]);
      EndFound(p, i);
    }
  }

  lemma {:induction false} PrefixRun(s: string, n: nat, k: nat)
    requires n < k <= |s|
    requires n == NonTermRun(s)
    ensures NonTermRun(s[..k]) == n
    decreases n
  {
    if n > 0 {
      assert s[..k][1..] == s[1..][..k - 1];
      PrefixRun(s[1..], n - 1, k - 1);
    }
  }

  /** Every match is non-terminators then terminators, so a run of terminators such as
      the one in "Wow!!" is never cut. */
  lemma {:induction false} MatchesShape(s: string)
    ensures forall i :: 0 <= i < |Matches(s)| ==> SentenceShape(Matches(s)[i])
    decreases |s|
  {
    if |s| > 0 {
      if IsTerminator(s[0]) {
        LeadStep(s);
        MatchesShape(s[1..]);
      } else if NonTermRun(s) < |s| {
        var k := MatchStep(s);
        MatchesShape(s[k..]);
        HeadShape(s, k);
        var ms := Matches(s);
        forall i | 0 <= i < |ms|
          ensures SentenceShape(ms[i])
        {
          if i > 0 {
            assert ms[i] == Matches(s[k..])[i - 1];
          }
        }
      }
    }
  }

  /** The first match has the shape of a sentence. */
  lemma HeadShape(s: string, k: nat)
    requires |s| > 0 && !IsTerminator(s[0]) && NonTermRun(s) < |s|
    requires k == NonTermRun(s) + TermRun(s[NonTermRun(s)..]) && k <= |s|
    ensures SentenceShape(s[..k])
  {
    var n := NonTermRun(s);
    var t := TermRun(s[n..]);
    PrefixRun(s, n, k);
    var m := s[..k];
    assert m[n..] == s[n..][..t];
  }

  /** Terminators at the head belong to no match. */
  lemma LeadStep(s: string)
    requires |s| > 0 && IsTerminator(s[0])
    ensures Matches(s) == Matches(s[1..])
    ensures TermRun(s) == 1 + TermRun(s[1..])
  {
  }

  lemma ConcatCons(m: string, ms: seq<string>)
    ensures Concat([m] + ms) == m + Concat(ms)
  {
    assert ([m] + ms)[1..] == ms;
  }

  /** Nothing is dropped but the terminators `p` starts with and the text after its last
      terminator, which holds no terminator. */
  lemma MatchesCover(s: string)
    ensures exists tail :: NoTerminator(tail) && s == s[..TermRun(s)] + Concat(Matches(s)) + tail
  {
    var tail := CoverTail(s);
  }

  lemma {:induction false} CoverTail(s: string) returns (tail: string)
    ensures NoTerminator(tail) && s == s[..TermRun(s)] + Concat(Matches(s)) + tail
    decreases |s|
  {
    if |s| == 0 {
      tail := "";
      assert s == s[..0] + Concat([]) + "";
    } else if IsTerminator(s[0]) {
      tail := CoverTail(s[1..]);
      CoverLead(s, tail);
    } else if NonTermRun(s) == |s| {
      tail := s;
      assert s == s[..0] + Concat([]) + s;
    } else {
      var n := NonTermRun(s);
      var k := n + TermRun(s[n..]);
      tail := CoverTail(s[k..]);
      CoverMatch(s, k, tail);
    }
  }

  lemma CoverLead(s: string, tail: string)
    requires |s| > 0 && IsTerminator(s[0])
    requires s[1..] == s[1..][..TermRun(s[1..])] + Concat(Matches(s[1..])) + tail
    ensures s == s[..TermRun(s)] + Concat(Matches(s)) + tail
  {
    var r := s[1..];
    var lead := r[..TermRun(r)];
    LeadStep(s);
    assert s[..TermRun(s)] == [s[0]] + lead;
    assert s == [s[0]] + r;
    Regroup3([s[0]], lead, Concat(Matches(r)), tail);
  }

  lemma CoverMatch(s: string, k: nat, tail: string)
    requires |s| > 0 && !IsTerminator(s[0]) && NonTermRun(s) < |s|
    requires k == NonTermRun(s) + TermRun(s[NonTermRun(s)..])
    requires k <= |s| && s[k..] == s[k..][..TermRun(s[k..])] + Concat(Matches(s[k..])) + tail
    ensures s == s[..TermRun(s)] + Concat(Matches(s)) + tail
  {
    var _ := MatchStep(s);
    var m := s[..k];
    var ms := Matches(s[k..]);
    ConcatCons(m, ms);
    JoinAt(s, k, Concat(ms), tail);
  }

  /** The first match of a text that starts with a non-terminator, and the rest. */
  lemma MatchStep(s: string) returns (k: nat)
    requires |s| > 0 && !IsTerminator(s[0]) && NonTermRun(s) < |s|
    ensures k == NonTermRun(s) + TermRun(s[NonTermRun(s)..]) && 0 < k <= |s|
    ensures Matches(s) == [s[..k]] + Matches(s[k..])
    ensures TermRun(s) == 0 && s[k..][..TermRun(s[k..])] == [] && s[..TermRun(s)] == []
  {
    k := NonTermRun(s) + TermRun(s[NonTermRun(s)..]);
  }

  lemma JoinAt(s: string, k: nat, c: string, tail: string)
    requires k <= |s| && s[k..] == [] + c + tail
    ensures s == [] + (s[..k] + c) + tail
  {
    assert s == s[..k] + s[k..];
  }

  lemma Regroup3(a: string, b: string, c: string, d: string)
    ensures a + (b + c + d) == a + b + c + d
  {
  }

  /** A piece as `splitSentences` returns it when something matched: not empty, ending in
      a terminator, not starting with white space. */
  predicate Sentence(piece: string) {
    |piece| > 0 && IsTerminator(piece[|piece| - 1]) && !IsWhiteSpace(piece[0])
  }

  lemma PieceShape(m: string)
    requires SentenceShape(m)
    ensures Sentence(Trim(m))
  {
    assert IsTerminator(m[|m| - 1]);
    TrimKeepsLast(m);
  }

  /** When something matches, there is one piece per match, and every piece is trimmed
      and ends in a terminator. */
  lemma SplitPieces(p: string)
    requires HasSentenceEnd(p)
    ensures |SplitSentences(p)| == |Matches(p)|
    ensures forall i :: 0 <= i < |SplitSentences(p)| ==> Sentence(SplitSentences(p)[i])
  {
    var j :| 0 <= j < |p| - 1 && !IsTerminator(p[j]) && IsTerminator(p[j + 1]);
    EndFound(p, j);
    MatchesShape(p);
    var ms := Matches(p);
    forall i | 0 <= i < |ms|
      ensures Sentence(Trim(ms[i]))
    {
      PieceShape(ms[i]);
    }
  }

  lemma {:induction false} NonTermRunOf(u: string, x: string)
    requires NoTerminator(u) && (x == [] || IsTerminator(x[0]))
    ensures NonTermRun(u + x) == |u|
  {
    if |u| > 0 {
      assert (u + x)[1..] == u[1..] + x;
      NonTermRunOf(u[1..], x);
    } else {
      assert u + x == x;
    }
  }

  lemma {:induction false} TermRunOf(t: string, x: string)
    requires AllTerminators(t) && (x == [] || !IsTerminator(x[0]))
    ensures TermRun(t + x) == |t|
  {
    if |t| > 0 {
      assert (t + x)[1..] == t[1..] + x;
      TermRunOf(t[1..], x);
    } else {
      assert t + x == x;
    }
  }

  /** A sentence (non-terminators, then terminators) at the head of the text is its
      first match, whatever follows once a non-terminator comes next. */
  lemma MatchesSentence(u: string, t: string, rest: string)
    requires |u| > 0 && NoTerminator(u) && |t| > 0 && AllTerminators(t)
    requires rest == [] || !IsTerminator(rest[0])
    ensures Matches(u + t + rest) == [u + t] + Matches(rest)
  {
    var s := u + t + rest;
    assert s == u + (t + rest);
    NonTermRunOf(u, t + rest);
    assert s[|u|..] == t + rest;
    TermRunOf(t, rest);
    var k := MatchStep(s);
    assert s[..k] == u + t && s[k..] == rest;
  }

  /** Text without a terminator has no match. */
  lemma MatchesNone(v: string)
    requires NoTerminator(v)
    ensures Matches(v) == []
  {
    if |v| > 0 {
      NonTermRunOf(v, []);
      assert v + [] == v;
    }
  }

  lemma TwoMatches(u1: string, t1: string, u2: string, t2: string, v: string)
    requires |u1| > 0 && NoTerminator(u1) && |t1| > 0 && AllTerminators(t1)
    requires |u2| > 0 && NoTerminator(u2) && |t2| > 0 && AllTerminators(t2)
    requires NoTerminator(v)
    ensures Matches(u1 + t1 + (u2 + t2 + v)) == [u1 + t1, u2 + t2]
  {
    MatchesNone(v);
    MatchesSentence(u2, t2, v);
    MatchesSentence(u1, t1, u2 + t2 + v);
  }

  /** Each sentence becomes one trimmed piece, in order. */
  lemma TwoSentences(u1: string, t1: string, u2: string, t2: string, v: string)
    requires |u1| > 0 && NoTerminator(u1) && |t1| > 0 && AllTerminators(t1)
    requires |u2| > 0 && NoTerminator(u2) && |t2| > 0 && AllTerminators(t2)
    requires NoTerminator(v)
    ensures SplitSentences(u1 + t1 + u2 + t2 + v) == [Trim(u1 + t1), Trim(u2 + t2)]
  {
    var p := u1 + t1 + u2 + t2 + v;
    assert p == u1 + t1 + (u2 + t2 + v);
    TwoMatches(u1, t1, u2, t2, v);
    TrimmedPair(p, u1 + t1, u2 + t2);
  }

  lemma TrimmedPair(p: string, a: string, b: string)
    requires Matches(p) == [a, b]
    ensures SplitSentences(p) == [Trim(a), Trim(b)]
  {
  }

  /** One sentence gives one piece: its run of terminators is kept whole ("Wow!!" stays
      "Wow!!"), and text after the last terminator is dropped. */
  lemma SentenceThenTail(u: string, t: string, v: string)
    requires |u| > 0 && NoTerminator(u) && |t| > 0 && AllTerminators(t)
    requires NoTerminator(v)
    ensures SplitSentences(u + t + v) == [Trim(u + t)]
  {
    MatchesNone(v);
    MatchesSentence(u, t, v);
    assert Matches(u + t + v) == [u + t];
  }

  // ------------------------------------------------------------------
  // The cache
  // ------------------------------------------------------------------

  /** `tsStr ? parseInt(tsStr, 10) : 0`; `None` stands for NaN. */
  function Timestamp(tsStr: Option<string>): Option<int> {
    match Truthy(tsStr)
    case None => Some(0)
    case Some(t) => ParseInt(t)
  }

  /** `raw && now - ts < TTL_MS`; a NaN timestamp makes the comparison false. */
  predicate CacheFresh(raw: Option<string>, tsStr: Option<string>, now: int) {
    Truthy(raw).Some? && Timestamp(tsStr).Some? && now - Timestamp(tsStr).value < TtlMs
  }

  /** A missing timestamp counts as the epoch. */
  lemma FreshWithoutStamp(raw: Option<string>, now: int)
    ensures CacheFresh(raw, None, now) <==> Truthy(raw).Some? && now < 3600000
  {
  }

  /** A timestamp written as `now.toString()` is fresh for exactly one hour. */
  lemma FreshAfterStamp(blob: string, now: int, later: int)
    requires |blob| > 0
    ensures CacheFresh(Some(blob), Some(DecimalString(now)), later) <==> later - now < 3600000
  {
    ParseIntOfDecimalString(now);
  }

  function Strings(lines: seq<string>): (r: seq<Json>)
    ensures |r| == |lines| && forall i :: 0 <= i < |lines| ==> r[i] == JStr(lines[i])
  {
    seq(|lines|, i requires 0 <= i < |lines| => JStr(lines[i]))
  }

  function AsStrings(items: seq<Json>): (r: Option<seq<string>>)
    ensures r.Some? ==> |r.value| == |items|
  {
    if |items| == 0 then Some([])
    else
      match (items[0], AsStrings(items[1..]))
      case (JStr(s), Some(rest)) => Some([s] + rest)
      case _ => None
  }

  lemma {:induction false} AsStringsOfStrings(lines: seq<string>)
    ensures AsStrings(Strings(lines)) == Some(lines)
  {
    if |lines| > 0 {
      assert Strings(lines)[1..] == Strings(lines[1..]);
      AsStringsOfStrings(lines[1..]);
      assert [lines[0]] + lines[1..] == lines;
    }
  }

  /** `JSON.stringify({ ref, lines })`. */
  function EncodeBlob(ref: string, lines: seq<string>): string {
    Stringify(JObj([Field("ref", JStr(ref)), Field("lines", JArr(Strings(lines)))]))
  }

  /** `const { ref, lines } = JSON.parse(raw)`, read as a string and a list of strings;
      `None` where it throws or the blob has another shape. */
  function DecodeBlob(raw: string): Option<(string, seq<string>)> {
    match Parse(raw)
    case Some(JObj(fs)) =>
      (match (GetString(fs, "ref"), Get(fs, "lines"))
       case (Some(ref), Some(JArr(items))) =>
         (match AsStrings(items)
          case Some(lines) => Some((ref, lines))
          case None => None)
       case _ => None)
    case _ => None
  }

  /** The stored blob reads back as the reference and lines written. */
  lemma BlobRoundTrip(ref: string, lines: seq<string>)
    ensures DecodeBlob(EncodeBlob(ref, lines)) == Some((ref, lines))
  {
    var fs := [Field("ref", JStr(ref)), Field("lines", JArr(Strings(lines)))];
    ParseStringify(JObj(fs));
    GetLastField(fs, 0);
    GetLastField(fs, 1);
    AsStringsOfStrings(lines);
  }

  /** The two writes of a successful search. */
  function CacheWrites(ref: string, lines: seq<string>, now: int): seq<(string, string)> {
    [(StorageKey, EncodeBlob(ref, lines)), (DateKey, DecimalString(now))]
  }

  /** After a write at `now`, a later mount uses the cache for exactly an hour and reads
      back what was written. */
  lemma ReadAfterWrite(items: map<string, string>, ref: string, lines: seq<string>, now: int, later: int)
    ensures var after := SetAll(items, CacheWrites(ref, lines, now));
            Lookup(after, StorageKey) == Some(EncodeBlob(ref, lines))
            && Lookup(after, DateKey) == Some(DecimalString(now))
            && (CacheFresh(Lookup(after, StorageKey), Lookup(after, DateKey), later) <==> later - now < 3600000)
            && DecodeBlob(Lookup(after, StorageKey).value) == Some((ref, lines))
  {
    var pairs := CacheWrites(ref, lines, now);
    SetAllLastWins(items, pairs, 0);
    SetAllLastWins(items, pairs, 1);
    var blob := EncodeBlob(ref, lines);
    assert blob[0] == '{';
    FreshAfterStamp(blob, now, later);
    BlobRoundTrip(ref, lines);
  }

  // ------------------------------------------------------------------
  // The component
  // ------------------------------------------------------------------

  datatype BibleVerse = BibleVerse(reference: string, text: string)

  /** What the search gives: `json.data.verses`, or a failure anywhere on the way. */
  datatype Search = Verses(verses: seq<BibleVerse>) | Fails

  /** The reference and first two sentences of the first verse, when there is one. */
  function Picked(search: Search): (r: Option<(string, seq<string>)>)
    ensures r.Some? <==> search.Verses? && |search.verses| > 0
    ensures r.Some? ==> r.value.0 == search.verses[0].reference && |r.value.1| <= 2
  {
    if search.Verses? && |search.verses| > 0 then
      var v := search.verses[0];
      Some((v.reference, TakeTwo(SplitSentences(v.text))))
    else None
  }

  datatype View = Spinner | Fallback | Shown(lines: seq<string>, reference: string)

  class Component {
    var lines: seq<string>
    var reference: Option<string>
    var loading: bool
    const store: Store

    constructor(store: Store)
      ensures this.store == store
      ensures lines == [] && reference == None && loading
    {
      this.store := store;
      lines := [];
      reference := None;
      loading := true;
    }

    /** What the component renders: a spinner while loading, the fallback message when
        no reference is set (`null` or empty), the verse otherwise. */
    function Render(): (v: View)
      reads this
      ensures v.Spinner? <==> loading
      ensures v.Fallback? <==> !loading && (reference.None? || reference.value == "")
    {
      if loading then Spinner
      else if reference.None? || reference.value == "" then Fallback
      else Shown(lines, reference.value)
    }

    /** The mount effect, at time `now`, with `search` for the outcome of the request;
        `threw` tells whether parsing a fresh cache threw, which leaves `loading` set. */
    method Mount(now: int, search: Search) returns (threw: bool)
      modifies this, store
      ensures var raw := Lookup(old(store.items), StorageKey);
              CacheFresh(raw, Lookup(old(store.items), DateKey), now) ==>
                store.items == old(store.items)
                && (DecodeBlob(raw.value).Some? ==>
                      !threw && !loading && reference == Some(DecodeBlob(raw.value).value.0)
                      && lines == DecodeBlob(raw.value).value.1)
                && (DecodeBlob(raw.value).None? ==>
                      threw && loading == old(loading) && reference == old(reference) && lines == old(lines))
      ensures !CacheFresh(Lookup(old(store.items), StorageKey), Lookup(old(store.items), DateKey), now) ==>
                !threw && !loading
                && (Picked(search).Some? ==>
                      reference == Some(Picked(search).value.0) && lines == Picked(search).value.1
                      && store.items == SetAll(old(store.items), CacheWrites(reference.value, lines, now)))
                && (Picked(search).None? ==>
                      reference == old(reference) && lines == old(lines) && store.items == old(store.items))
      ensures old(reference).None? && Picked(search).None?
              && !CacheFresh(Lookup(old(store.items), StorageKey), Lookup(old(store.items), DateKey), now)
              ==> Render() == Fallback
    {
      threw := false;
      var raw := store.GetItem(StorageKey);
      var tsStr := store.GetItem(DateKey);
      if CacheFresh(raw, tsStr, now) {
        var blob := DecodeBlob(raw.value);
        if blob.Some? {
          reference := Some(blob.value.0);
          lines := blob.value.1;
          loading := false;
        } else {
          threw := true;
        }
        return;
      }
      var picked := Picked(search);
      if picked.Some? {
        var two := picked.value.1;
        store.MultiSet(CacheWrites(picked.value.0, two, now));
        reference := Some(picked.value.0);
        lines := two;
      }
      loading := false;
    }
  }
}

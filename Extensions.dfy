/** `Extensions.ToQueryString`: a dictionary rendered as `k=v&k=v`.
    `WebUtility.UrlEncode` is a parameter `enc`; the round trip is proved for every
    encoder that behaves like a percent-encoder (section 2.1 of RFC 3986): it never
    emits '&' or '=', it has a decoder, and it maps "" to "". */
module Extensions {
  import opened Wrappers

  /** One dictionary entry in enumeration order; a `None` value is a C# `null`. */
  type Pair = (string, Option<string>)

  ghost predicate IsPercentEncoder(enc: string -> string, dec: string -> string) {
    && (forall s :: '&' !in enc(s) && '=' !in enc(s))
    && (forall s :: dec(enc(s)) == s)
    && enc("") == ""
  }

  /** `UrlEncode(null)` is null and `string.Concat` writes null as nothing. */
  function EncodeValue(enc: string -> string, v: Option<string>): string {
    match v
    case None => ""
    case Some(s) => enc(s)
  }

  function Segment(enc: string -> string, p: Pair): string {
    enc(p.0) + "=" + EncodeValue(enc, p.1)
  }

  function Segments(enc: string -> string, ps: seq<Pair>): (r: seq<string>)
    ensures |r| == |ps|
    ensures forall i :: 0 <= i < |ps| ==> r[i] == Segment(enc, ps[i])
  {
    if ps == [] then [] else [Segment(enc, ps[0])] + Segments(enc, ps[1..])
  }

  /** `string.Join(sep, parts)`. */
  function Join(sep: char, parts: seq<string>): string {
    if |parts| == 0 then ""
    else if |parts| == 1 then parts[0]
    else parts[0] + [sep] + Join(sep, parts[1..])
  }

  /** The query string for a dictionary; `dict == None` is a null dictionary. */
  function ToQueryString(enc: string -> string, dict: Option<seq<Pair>>): (r: string)
    ensures r == "" <==> dict.None? || |dict.value| == 0
  {
    if dict.None? || |dict.value| == 0 then ""
    else Join('&', Segments(enc, dict.value))
  }

  /** Splitting on a separator, the inverse of `Join` (every piece kept, empty ones too). */
  function Split(s: string, sep: char): (r: seq<string>)
    ensures |r| > 0
    decreases |s|
  {
    if |s| == 0 then [""]
    else if s[0] == sep then [""] + Split(s[1..], sep)
    else
      var rest := Split(s[1..], sep);
      [[s[0]] + rest[0]] + rest[1..]
  }

  function Count(c: char, s: string): nat {
    if |s| == 0 then 0 else (if s[0] == c then 1 else 0) + Count(c, s[1..])
  }

  /** Reads one `k=v` segment back: exactly one '=' is required. */
  function ParsePair(dec: string -> string, segment: string): Option<(string, string)> {
    var halves := Split(segment, '=');
    if |halves| == 2 then Some((dec(halves[0]), dec(halves[1]))) else None
  }

  function ParsePairs(dec: string -> string, segments: seq<string>): Option<seq<(string, string)>> {
    if segments == [] then Some([])
    else match (ParsePair(dec, segments[0]), ParsePairs(dec, segments[1..]))
      case (Some(p), Some(rest)) => Some([p] + rest)
      case _ => None
  }

  /** Reference reader for a query string: split on '&', then on '=', then decode. */
  function ParseQuery(dec: string -> string, q: string): Option<seq<(string, string)>> {
    ParsePairs(dec, Split(q, '&'))
  }

  /** What a reader sees for each entry: a null value reads as the empty string. */
  function Decoded(ps: seq<Pair>): (r: seq<(string, string)>)
    ensures |r| == |ps|
    ensures forall i :: 0 <= i < |ps| ==> r[i] == (ps[i].0, ps[i].1.GetOr(""))
  {
    if ps == [] then [] else [(ps[0].0, ps[0].1.GetOr(""))] + Decoded(ps[1..])
  }

  // ---------------------------------------------------------------------------
  // Properties of ToQueryString

  /** A null or empty dictionary yields the empty string. */
  lemma EmptyDictionary(enc: string -> string, dict: Option<seq<Pair>>)
    requires dict.None? || dict == Some([])
    ensures ToQueryString(enc, dict) == ""
  {
  }

  lemma CountAppend(c: char, a: string, b: string)
    ensures Count(c, a + b) == Count(c, a) + Count(c, b)
  {
    if |a| > 0 {
      assert (a + b)[1..] == a[1..] + b;
      CountAppend(c, a[1..], b);
    } else {
      assert a + b == b;
    }
  }

  lemma CountZero(c: char, s: string)
    requires c !in s
    ensures Count(c, s) == 0
  {
    if |s| > 0 {
      CountZero(c, s[1..]);
    }
  }

  /** Joining n pieces free of the separator writes exactly n - 1 separators. */
  lemma {:induction false} JoinCount(sep: char, parts: seq<string>)
    requires |parts| > 0
    requires forall i :: 0 <= i < |parts| ==> sep !in parts[i]
    ensures Count(sep, Join(sep, parts)) == |parts| - 1
  {
    if |parts| == 1 {
      CountZero(sep, parts[0]);
    } else {
      JoinCount(sep, parts[1..]);
      CountZero(sep, parts[0]);
      CountAppend(sep, parts[0], [sep]);
      CountAppend(sep, parts[0] + [sep], Join(sep, parts[1..]));
    }
  }

  /** Each segment holds exactly one '=' and no '&'. */
  lemma SegmentShape(enc: string -> string, dec: string -> string, p: Pair)
    requires IsPercentEncoder(enc, dec)
    ensures '&' !in Segment(enc, p)
    ensures Count('=', Segment(enc, p)) == 1
  {
    var v := EncodeValue(enc, p.1);
    assert '=' !in v && '&' !in v by {
      if p.1.None? { assert v == enc(""); }
    }
    CountZero('=', enc(p.0));
    CountZero('=', v);
    CountAppend('=', enc(p.0), "=");
    CountAppend('=', enc(p.0) + "=", v);
  }

  /** n entries produce exactly n - 1 '&' separators. */
  lemma SeparatorCount(enc: string -> string, dec: string -> string, ps: seq<Pair>)
    requires IsPercentEncoder(enc, dec)
    requires |ps| > 0
    ensures Count('&', ToQueryString(enc, Some(ps))) == |ps| - 1
  {
    var segs := Segments(enc, ps);
    forall i | 0 <= i < |segs| ensures '&' !in segs[i] {
      SegmentShape(enc, dec, ps[i]);
    }
    JoinCount('&', segs);
  }

  /** Splitting a piece free of the separator gives the piece alone. */
  lemma {:induction false} SplitNoSep(s: string, sep: char)
    requires sep !in s
    ensures Split(s, sep) == [s]
  {
    if |s| > 0 {
      SplitNoSep(s[1..], sep);
      assert [s[0]] + s[1..] == s;
    }
  }

  /** Splitting `p + [sep] + t`, with `p` free of the separator, peels `p` off. */
  lemma {:induction false} SplitPeel(p: string, sep: char, t: string)
    requires sep !in p
    ensures Split(p + [sep] + t, sep) == [p] + Split(t, sep)
  {
    if |p| == 0 {
      assert p + [sep] + t == [sep] + t;
      assert ([sep] + t)[1..] == t;
    } else {
      assert (p + [sep] + t)[1..] == p[1..] + [sep] + t;
      SplitPeel(p[1..], sep, t);
      assert [p[0]] + p[1..] == p;
    }
  }

  /** `Split` undoes `Join` when no piece contains the separator. */
  lemma {:induction false} SplitJoin(sep: char, parts: seq<string>)
    requires |parts| > 0
    requires forall i :: 0 <= i < |parts| ==> sep !in parts[i]
    ensures Split(Join(sep, parts), sep) == parts
  {
    if |parts| == 1 {
      SplitNoSep(parts[0], sep);
    } else {
      SplitJoin(sep, parts[1..]);
      SplitPeel(parts[0], sep, Join(sep, parts[1..]));
      assert [parts[0]] + parts[1..] == parts;
    }
  }

  lemma ParseSegment(enc: string -> string, dec: string -> string, p: Pair)
    requires IsPercentEncoder(enc, dec)
    ensures ParsePair(dec, Segment(enc, p)) == Some((p.0, p.1.GetOr("")))
  {
    var v := EncodeValue(enc, p.1);
    assert '=' !in v && dec(v) == p.1.GetOr("") by {
      if p.1.None? { assert v == enc(""); }
    }
    SplitPeel(enc(p.0), '=', v);
    SplitNoSep(v, '=');
  }

  lemma {:induction false} ParseSegments(enc: string -> string, dec: string -> string, ps: seq<Pair>)
    requires IsPercentEncoder(enc, dec)
    ensures ParsePairs(dec, Segments(enc, ps)) == Some(Decoded(ps))
  {
    if ps != [] {
      ParseSegment(enc, dec, ps[0]);
      ParseSegments(enc, dec, ps[1..]);
      assert Segments(enc, ps)[1..] == Segments(enc, ps[1..]);
    }
  }

  /** Round trip: for a non-empty dictionary, splitting on '&', then on '=', then
      decoding recovers every entry in enumeration order (a null value as ""). */
  lemma RoundTrip(enc: string -> string, dec: string -> string, ps: seq<Pair>)
    requires IsPercentEncoder(enc, dec)
    requires |ps| > 0
    ensures ParseQuery(dec, ToQueryString(enc, Some(ps))) == Some(Decoded(ps))
  {
    var segs := Segments(enc, ps);
    forall i | 0 <= i < |segs| ensures '&' !in segs[i] {
      SegmentShape(enc, dec, ps[i]);
    }
    SplitJoin('&', segs);
    ParseSegments(enc, dec, ps);
  }
}

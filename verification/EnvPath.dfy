/** From environment variables to configuration paths: HWHKIT__A__B_C names a.b_c. */
module EnvPath {

  const PREFIX := "HWHKIT__"
  const SEPARATOR := "__"

  // ------------------------------------------------------------- the decoder

  function TrimPrefix(s: string, prefix: string): string {
    if prefix <= s then s[|prefix|..] else s
  }

  /** Replaces every "__", from the left and without overlaps, by ".". */
  function ReplaceSeparators(s: string): string {
    if |s| < 2 then s
    else if s[..2] == SEPARATOR then "." + ReplaceSeparators(s[2..])
    else [s[0]] + ReplaceSeparators(s[1..])
  }

  function LowerChar(c: char): char {
    if 'A' <= c <= 'Z' then c - 'A' + 'a' else c
  }

  function UpperChar(c: char): char {
    if 'a' <= c <= 'z' then c - 'a' + 'A' else c
  }

  function Lower(s: string): (r: string)
    ensures |r| == |s| && forall i :: 0 <= i < |s| ==> r[i] == LowerChar(s[i])
  {
    seq(|s|, i requires 0 <= i < |s| => LowerChar(s[i]))
  }

  function Upper(s: string): (r: string)
    ensures |r| == |s| && forall i :: 0 <= i < |s| ==> r[i] == UpperChar(s[i])
  {
    seq(|s|, i requires 0 <= i < |s| => UpperChar(s[i]))
  }

  /** The key under which the loader stores the value of a variable. */
  function Decode(variable: string): string {
    Lower(ReplaceSeparators(TrimPrefix(variable, PREFIX)))
  }

  // ------------------------------------------------------- paths and variables

  predicate IsSegmentChar(c: char) {
    'a' <= c <= 'z' || '0' <= c <= '9' || c == '_'
  }

  /** Segments of configuration paths: lower-case letters, digits and underscores. */
  predicate IsSegment(s: string) {
    forall i :: 0 <= i < |s| ==> IsSegmentChar(s[i])
  }

  predicate IsPath(segments: seq<string>) {
    segments != [] && forall i :: 0 <= i < |segments| ==> IsSegment(segments[i])
  }

  function Join(segments: seq<string>, sep: string): string
    requires segments != []
  {
    if |segments| == 1 then segments[0] else segments[0] + sep + Join(segments[1..], sep)
  }

  function Dotted(segments: seq<string>): string
    requires segments != []
  {
    Join(segments, ".")
  }

  /** The variable the documentation gives for a path. */
  function Encode(segments: seq<string>): string
    requires segments != []
  {
    PREFIX + Upper(Join(segments, SEPARATOR))
  }

  /** No two underscores in a row, and no underscore at the end unless nothing follows. */
  predicate Separable(segments: seq<string>) {
    && (forall i :: 0 <= i < |segments| ==> !Doubled(segments[i]))
    && (forall i :: 0 <= i < |segments| - 1 ==> !EndsInUnderscore(segments[i]))
  }

  predicate Doubled(s: string) {
    exists i :: 0 <= i < |s| - 1 && s[i] == '_' && s[i + 1] == '_'
  }

  predicate EndsInUnderscore(s: string) {
    s != "" && s[|s| - 1] == '_'
  }

  // ------------------------------------------------------------ case changes

  lemma UpperKeepsUnderscores(s: string)
    requires IsSegmentOrDot(s)
    ensures forall i :: 0 <= i < |s| ==> (Upper(s)[i] == '_' <==> s[i] == '_') && LowerChar(Upper(s)[i]) == s[i]
  {
  }

  lemma SegmentTail(s: string, k: nat)
    requires IsSegmentOrDot(s) && k <= |s|
    ensures IsSegmentOrDot(s[k..])
  {
  }

  predicate IsSegmentOrDot(s: string) {
    forall i :: 0 <= i < |s| ==> IsSegmentChar(s[i]) || s[i] == '.'
  }

  lemma LowerSplits(c: char, s: string)
    ensures Lower([c] + s) == [LowerChar(c)] + Lower(s)
  {
  }

  /** Replacing separators in upper case and then lowering is replacing them in lower case. */
  lemma {:induction false} ReplaceThenLower(s: string)
    requires IsSegmentOrDot(s)
    ensures Lower(ReplaceSeparators(Upper(s))) == ReplaceSeparators(s)
  {
    hide IsSegmentOrDot;
    UpperKeepsUnderscores(s);
    var u := Upper(s);
    if |s| >= 2 {
      var k := if s[..2] == SEPARATOR then 2 else 1;
      SegmentTail(s, k);
      ReplaceThenLower(s[k..]);
      assert u[k..] == Upper(s[k..]);
      assert u[..2] == [u[0], u[1]] && s[..2] == [s[0], s[1]];
      LowerSplits(if k == 2 then '.' else u[0], ReplaceSeparators(u[k..]));
    } else {
      assert ReplaceSeparators(u) == u;
    }
  }

  lemma {:induction false} JoinIsSegmentOrDot(segments: seq<string>, sep: string)
    requires IsPath(segments) && (sep == SEPARATOR || sep == ".")
    ensures IsSegmentOrDot(Join(segments, sep))
  {
    if |segments| > 1 {
      JoinIsSegmentOrDot(segments[1..], sep);
    }
  }

  lemma DecodeEncode(segments: seq<string>)
    requires IsPath(segments)
    ensures Decode(Encode(segments)) == ReplaceSeparators(Join(segments, SEPARATOR))
  {
    var joined := Join(segments, SEPARATOR);
    assert Encode(segments)[|PREFIX|..] == Upper(joined);
    JoinIsSegmentOrDot(segments, SEPARATOR);
    ReplaceThenLower(joined);
  }

  /** The variables and the dotted paths in figures: a segment is in upper case after the prefix... */
  lemma EncodeSegment(s: string)
    ensures Dotted([s]) == s && |Encode([s])| == 8 + |s| && Encode([s])[..8] == "HWHKIT__"
    ensures forall i :: 0 <= i < |s| ==>
              Encode([s])[8 + i] == if 'a' <= s[i] <= 'z' then (s[i] as int - 32) as char else s[i]
  {
    PrefixOf([s]);
    hide Encode;
  }

  /** ... and segments are joined by "__", or by dots. */
  lemma EncodeAdds(a: seq<string>, b: seq<string>)
    requires a != [] && b != []
    ensures Encode(a + b) == Encode(a) + "__" + Encode(b)[8..] && Dotted(a + b) == Dotted(a) + "." + Dotted(b)
  {
    DottedAdds(a, b);
    JoinAdds(a, b, SEPARATOR);
    var x, y := Join(a, SEPARATOR), Join(b, SEPARATOR);
    UpperAdds(x, y);
    PrefixOf(a + b);
    PrefixOf(a);
    PrefixOf(b);
    hide Join, Upper, Encode, Dotted;
    Glue("HWHKIT__", Upper(x), SEPARATOR, Upper(y));
  }

  lemma DottedAdds(a: seq<string>, b: seq<string>)
    requires a != [] && b != []
    ensures Dotted(a + b) == Dotted(a) + "." + Dotted(b)
  {
    JoinAdds(a, b, ".");
    hide Join;
  }

  lemma Glue(p: string, x: string, y: string, z: string)
    ensures p + (x + y + z) == p + x + y + z
  {
  }

  lemma UpperAdds(x: string, y: string)
    ensures Upper(x + SEPARATOR + y) == Upper(x) + SEPARATOR + Upper(y)
  {
    assert Upper(SEPARATOR) == SEPARATOR;
  }

  lemma PrefixOf(a: seq<string>)
    requires a != []
    ensures Encode(a) == "HWHKIT__" + Upper(Join(a, SEPARATOR)) && Encode(a)[8..] == Upper(Join(a, SEPARATOR))
    ensures |a| == 1 ==> Join(a, SEPARATOR) == a[0]
  {
    hide Upper;
  }

  lemma {:induction false} JoinAdds(a: seq<string>, b: seq<string>, sep: string)
    requires a != [] && b != []
    ensures Join(a + b, sep) == Join(a, sep) + sep + Join(b, sep)
  {
    assert (a + b)[1..] == a[1..] + b;
    if |a| > 1 {
      JoinAdds(a[1..], b, sep);
      assert a[0] + sep + (Join(a[1..], sep) + sep + Join(b, sep)) == a[0] + sep + Join(a[1..], sep) + sep + Join(b, sep);
    } else {
      assert a[1..] + b == b;
    }
  }

  // --------------------------------------------------------- the round trip holds

  /** A stretch without doubled or final underscore comes through, and then the separator does. */
  lemma {:induction false} SegmentThenSeparator(s: string, rest: string)
    requires !Doubled(s) && !EndsInUnderscore(s)
    ensures ReplaceSeparators(s + SEPARATOR + rest) == s + "." + ReplaceSeparators(rest)
    decreases |s|
  {
    var all := s + SEPARATOR + rest;
    if s == "" {
      assert all == SEPARATOR + rest;
      assert all[..2] == SEPARATOR && all[2..] == rest;
    } else {
      assert all[0] == s[0] && all[1..] == s[1..] + SEPARATOR + rest;
      NotDoubledTail(s);
      SegmentThenSeparator(s[1..], rest);
      assert all[..2] == [all[0], all[1]];
      if |s| > 1 {
        assert all[1] == s[1];
      }
      assert all[..2] != SEPARATOR;
      assert [s[0]] + (s[1..] + "." + ReplaceSeparators(rest)) == s + "." + ReplaceSeparators(rest);
    }
  }

  lemma NotDoubledTail(s: string)
    requires s != "" && !Doubled(s)
    ensures !Doubled(s[1..]) && (s[1..] != "" ==> (EndsInUnderscore(s[1..]) <==> EndsInUnderscore(s)))
    ensures |s| > 1 ==> !(s[0] == '_' && s[1] == '_')
  {
    var t := s[1..];
    forall i | 0 <= i < |t| - 1
      ensures !(t[i] == '_' && t[i + 1] == '_')
    {
      assert t[i] == s[i + 1] && t[i + 1] == s[i + 1 + 1];
    }
    assert |s| > 1 ==> s[0 + 1] == s[1];
  }

  lemma {:induction false} LastSegment(s: string)
    requires !Doubled(s)
    ensures ReplaceSeparators(s) == s
  {
    if |s| >= 2 {
      NotDoubledTail(s);
      LastSegment(s[1..]);
      assert s[..2] == [s[0], s[1]];
    }
  }

  /** The decoder in figures: what has no "__" is lowered letter by letter, and the first "__" is a dot with the
      rest decoded after it; without the prefix nothing is cut off. */
  lemma DecodeInFigures(s: string, rest: string)
    requires forall i :: 0 <= i < |s| - 1 && s[i] == '_' ==> s[i + 1] != '_'
    ensures |Decode("HWHKIT__" + s)| == |s|
    ensures forall i :: 0 <= i < |s| ==>
              Decode("HWHKIT__" + s)[i] == if 'A' <= s[i] <= 'Z' then (s[i] as int + 32) as char else s[i]
    ensures s == "" || s[|s| - 1] != '_' ==>
              Decode("HWHKIT__" + (s + "__" + rest)) == Decode("HWHKIT__" + s) + "." + Decode("HWHKIT__" + rest)
    ensures !("HWHKIT__" <= rest) ==> Decode(rest) == Decode("HWHKIT__" + rest)
  {
    TrimOnce(s);
    TrimOnce(rest);
    TrimOnce(s + "__" + rest);
    LastSegment(s);
    if s == "" || s[|s| - 1] != '_' {
      SegmentThenSeparator(s, rest);
      LowerAdds(s, ReplaceSeparators(rest));
    }
    hide ReplaceSeparators, TrimPrefix, Lower;
  }

  lemma LowerAdds(x: string, y: string)
    ensures Lower(x + "." + y) == Lower(x) + "." + Lower(y)
  {
    assert Lower(".") == ".";
  }

  lemma TrimOnce(s: string)
    ensures TrimPrefix("HWHKIT__" + s, PREFIX) == s
    ensures !("HWHKIT__" <= s) ==> TrimPrefix(s, PREFIX) == s
  {
  }

  lemma {:induction false} SeparableComesThrough(segments: seq<string>)
    requires segments != [] && Separable(segments)
    ensures ReplaceSeparators(Join(segments, SEPARATOR)) == Dotted(segments)
  {
    if |segments| == 1 {
      LastSegment(segments[0]);
    } else {
      SeparableComesThrough(segments[1..]);
      SegmentThenSeparator(segments[0], Join(segments[1..], SEPARATOR));
    }
  }

  // ------------------------------------------------------------ and only then

  /** The pairs of characters that decoding cannot produce. */
  predicate BadPair(a: char, b: char) {
    a == '_' && (b == '_' || b == '.')
  }

  predicate HasBadPair(s: string) {
    exists i :: 0 <= i < |s| - 1 && BadPair(s[i], s[i + 1])
  }

  /** After decoding a string without dots an underscore is followed by neither an underscore nor a dot. */
  lemma {:induction false} NoBadPairDecoded(s: string)
    requires IsSegment(s)
    ensures !HasBadPair(ReplaceSeparators(s))
    ensures s != "" ==> ReplaceSeparators(s) != ""
    ensures s != "" && !(|s| >= 2 && s[..2] == SEPARATOR) ==> ReplaceSeparators(s)[0] == s[0]
  {
    if |s| >= 2 {
      var r := ReplaceSeparators(s);
      assert s[..2] == [s[0], s[1]];
      var k := if s[..2] == SEPARATOR then 2 else 1;
      NoBadPairDecoded(s[k..]);
      var tail := ReplaceSeparators(s[k..]);
      assert r == [r[0]] + tail;
      forall i | 0 <= i < |r| - 1
        ensures !BadPair(r[i], r[i + 1])
      {
        if i > 0 {
          assert r[i] == tail[i - 1] && r[i + 1] == tail[i - 1 + 1];
        } else if k == 1 && s[0] == '_' {
          assert s[1] != '_' && s[1..][0] == s[1];
          assert |s| > 2 ==> s[1..][..2][0] == s[1];
          assert tail[0] == s[1];
        }
      }
    }
  }

  lemma {:induction false} JoinedIsSegment(segments: seq<string>)
    requires IsPath(segments)
    ensures IsSegment(Join(segments, SEPARATOR))
  {
    if |segments| > 1 {
      JoinedIsSegment(segments[1..]);
    }
  }

  lemma {:induction false} InseparableIsBad(segments: seq<string>)
    requires segments != [] && !Separable(segments)
    ensures HasBadPair(Dotted(segments))
  {
    var head, dotted := segments[0], Dotted(segments);
    if Doubled(head) {
      var i :| 0 <= i < |head| - 1 && head[i] == '_' && head[i + 1] == '_';
      assert dotted[i] == head[i] && dotted[i + 1] == head[i + 1];
      assert BadPair(dotted[i], dotted[i + 1]);
    } else if |segments| > 1 {
      if EndsInUnderscore(head) {
        var i := |head| - 1;
        assert dotted[i] == head[i] && dotted[i + 1] == '.';
        assert BadPair(dotted[i], dotted[i + 1]);
      } else {
        var rest := segments[1..];
        InseparableTail(segments);
        InseparableIsBad(rest);
        var i :| 0 <= i < |Dotted(rest)| - 1 && BadPair(Dotted(rest)[i], Dotted(rest)[i + 1]);
        var j := |head| + 1 + i;
        assert dotted == (head + ".") + Dotted(rest);
        assert dotted[j] == Dotted(rest)[i] && dotted[j + 1] == Dotted(rest)[i + 1];
        assert BadPair(dotted[j], dotted[j + 1]);
      }
    }
  }

  lemma InseparableTail(segments: seq<string>)
    requires |segments| > 1 && !Separable(segments) && !Doubled(segments[0]) && !EndsInUnderscore(segments[0])
    ensures !Separable(segments[1..])
  {
    var rest := segments[1..];
    if Separable(rest) {
      forall i | 0 <= i < |segments|
        ensures !Doubled(segments[i]) && (i < |segments| - 1 ==> !EndsInUnderscore(segments[i]))
      {
        assert i > 0 ==> segments[i] == rest[i - 1];
      }
    }
  }

  /** Encoding a path and decoding the variable gives the dotted path back exactly when no segment holds
      a doubled underscore and none but the last ends in one. */
  lemma RoundTripExact(segments: seq<string>)
    requires IsPath(segments)
    ensures Decode(Encode(segments)) == Dotted(segments) <==> Separable(segments)
  {
    DecodeEncode(segments);
    if Separable(segments) {
      SeparableComesThrough(segments);
    } else {
      JoinedIsSegment(segments);
      NoBadPairDecoded(Join(segments, SEPARATOR));
      InseparableIsBad(segments);
    }
  }

  // --------------------------------------------------------------- injectivity

  predicate DotFree(s: string) {
    forall i :: 0 <= i < |s| ==> s[i] != '.'
  }

  /** The dotted form determines the path. */
  lemma {:induction false} DottedInjective(a: seq<string>, b: seq<string>)
    requires IsPath(a) && IsPath(b) && Dotted(a) == Dotted(b)
    ensures a == b
  {
    HeadOf(a);
    HeadOf(b);
    assert a[0] == Dotted(a)[..|a[0]|] == Dotted(b)[..|b[0]|] == b[0];
    if |a| > 1 && |b| > 1 {
      assert Dotted(a)[|a[0]| + 1..] == Dotted(a[1..]) && Dotted(b)[|b[0]| + 1..] == Dotted(b[1..]);
      DottedInjective(a[1..], b[1..]);
      assert a == [a[0]] + a[1..] && b == [b[0]] + b[1..];
    }
  }

  lemma HeadOf(a: seq<string>)
    requires IsPath(a)
    ensures |Dotted(a)| >= |a[0]| && Dotted(a)[..|a[0]|] == a[0] && DotFree(a[0])
    ensures |a| == 1 <==> |Dotted(a)| == |a[0]|
    ensures |a| > 1 ==> Dotted(a)[|a[0]|] == '.'
    ensures |a| > 1 ==> IsPath(a[1..]) && Dotted(a)[|a[0]| + 1..] == Dotted(a[1..])
  {
  }

  /** So no two paths that come through share a variable. */
  lemma EncodingInjective(a: seq<string>, b: seq<string>)
    requires IsPath(a) && IsPath(b) && Separable(a) && Separable(b) && Encode(a) == Encode(b)
    ensures a == b
  {
    RoundTripExact(a);
    RoundTripExact(b);
    DottedInjective(a, b);
  }
}

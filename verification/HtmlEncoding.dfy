/** The HTML encoding used to compare editor contents (cypress/pages/ndv.ts:353-360). */
module HtmlEncoding {
  /** Every occurrence of a character replaced by a string, as a global `replace` does. */
  function ReplaceAll(s: string, c: char, entity: string): string {
    if s == "" then "" else (if s[0] == c then entity else [s[0]]) + ReplaceAll(s[1..], c, entity)
  }

  /** The five replacements, in the order of the source. */
  function AsEncodedHTML(s: string): string {
    Entities(ReplaceAll(s, '&', "&amp;"))
  }

  function Entities(s: string): string {
    ReplaceAll(ReplaceAll(ReplaceAll(ReplaceAll(s, '<', "&lt;"), '>', "&gt;"), '"', "&quot;"), ' ', "&nbsp;")
  }

  function EncodeChar(c: char): string {
    match c
    case '&' => "&amp;"
    case '<' => "&lt;"
    case '>' => "&gt;"
    case '"' => "&quot;"
    case ' ' => "&nbsp;"
    case _ => [c]
  }

  function EncodeEach(s: string): string {
    if s == "" then "" else EncodeChar(s[0]) + EncodeEach(s[1..])
  }

  lemma {:induction false} ReplaceAllConcat(a: string, b: string, c: char, entity: string)
    ensures ReplaceAll(a + b, c, entity) == ReplaceAll(a, c, entity) + ReplaceAll(b, c, entity)
  {
    if a == "" {
      assert a + b == b;
    } else {
      assert (a + b)[1..] == a[1..] + b;
      ReplaceAllConcat(a[1..], b, c, entity);
    }
  }

  lemma {:induction false} ReplaceAllAbsent(s: string, c: char, entity: string)
    requires c !in s
    ensures ReplaceAll(s, c, entity) == s
  {
    if s == "" {
    } else {
      ReplaceAllAbsent(s[1..], c, entity);
    }
  }

  lemma EntitiesConcat(a: string, b: string)
    ensures Entities(a + b) == Entities(a) + Entities(b)
  {
    ReplaceAllConcat(a, b, '<', "&lt;");
    var a1, b1 := ReplaceAll(a, '<', "&lt;"), ReplaceAll(b, '<', "&lt;");
    ReplaceAllConcat(a1, b1, '>', "&gt;");
    var a2, b2 := ReplaceAll(a1, '>', "&gt;"), ReplaceAll(b1, '>', "&gt;");
    ReplaceAllConcat(a2, b2, '"', "&quot;");
    ReplaceAllConcat(ReplaceAll(a2, '"', "&quot;"), ReplaceAll(b2, '"', "&quot;"), ' ', "&nbsp;");
  }

  lemma EntitiesAbsent(s: string)
    requires '<' !in s && '>' !in s && '"' !in s && ' ' !in s
    ensures Entities(s) == s
  {
    ReplaceAllAbsent(s, '<', "&lt;");
    ReplaceAllAbsent(s, '>', "&gt;");
    ReplaceAllAbsent(s, '"', "&quot;");
    ReplaceAllAbsent(s, ' ', "&nbsp;");
  }

  lemma ReplaceOne(c: char, entity: string)
    ensures ReplaceAll([c], c, entity) == entity
  {
    assert [c][1..] == "" && entity + "" == entity;
  }

  lemma EncodedChar(c: char)
    ensures AsEncodedHTML([c]) == EncodeChar(c)
  {
    if c in {'&', '<', '>', '"', ' '} {
      var entity := EncodeChar(c);
      ReplaceOne(c, entity);
      if c != '&' {
        ReplaceAllAbsent([c], '&', "&amp;");
      }
      if c != '<' && c != '&' {
        ReplaceAllAbsent([c], '<', "&lt;");
        if c != '>' {
          ReplaceAllAbsent([c], '>', "&gt;");
          if c != '"' {
            ReplaceAllAbsent([c], '"', "&quot;");
          }
        }
      }
      EntitiesAbsent(entity);
      ReplaceAllAbsent(entity, '>', "&gt;");
      ReplaceAllAbsent(entity, '"', "&quot;");
      ReplaceAllAbsent(entity, ' ', "&nbsp;");
    } else {
      ReplaceAllAbsent([c], '&', "&amp;");
      EntitiesAbsent([c]);
    }
  }

  lemma AsEncodedConcat(a: string, b: string)
    ensures AsEncodedHTML(a + b) == AsEncodedHTML(a) + AsEncodedHTML(b)
  {
    ReplaceAllConcat(a, b, '&', "&amp;");
    EntitiesConcat(ReplaceAll(a, '&', "&amp;"), ReplaceAll(b, '&', "&amp;"));
  }

  /** The five passes over the whole string amount to one pass, character by character. */
  lemma {:induction false} PassesFuse(s: string)
    ensures AsEncodedHTML(s) == EncodeEach(s)
  {
    if s == "" {
    } else {
      assert s == [s[0]] + s[1..];
      AsEncodedConcat([s[0]], s[1..]);
      EncodedChar(s[0]);
      PassesFuse(s[1..]);
    }
  }

  /** What becomes of each character, wherever it stands. */
  lemma EncodedWhereverItStands(before: string, c: char, behind: string)
    ensures var r, s, t := AsEncodedHTML(before + [c] + behind), AsEncodedHTML(before), AsEncodedHTML(behind);
            && (c == '&' ==> r == s + "&amp;" + t)
            && (c == '<' ==> r == s + "&lt;" + t)
            && (c == '>' ==> r == s + "&gt;" + t)
            && (c == '"' ==> r == s + "&quot;" + t)
            && (c == ' ' ==> r == s + "&nbsp;" + t)
            && (c !in {'&', '<', '>', '"', ' '} ==> r == s + [c] + t)
  {
    AsEncodedConcat(before + [c], behind);
    AsEncodedConcat(before, [c]);
    EncodedChar(c);
  }

  /** Reads the five entities back; everything else stands for itself. */
  function Decode(s: string): string
    decreases |s|
  {
    if s == "" then ""
    else if "&amp;" <= s then "&" + Decode(s[5..])
    else if "&lt;" <= s then "<" + Decode(s[4..])
    else if "&gt;" <= s then ">" + Decode(s[4..])
    else if "&quot;" <= s then "\"" + Decode(s[6..])
    else if "&nbsp;" <= s then " " + Decode(s[6..])
    else [s[0]] + Decode(s[1..])
  }

  lemma DecodeFirst(c: char, rest: string)
    ensures Decode(EncodeChar(c) + rest) == [c] + Decode(rest)
  {
    var s := EncodeChar(c) + rest;
    assert s[|EncodeChar(c)|..] == rest;
    if c == '&' || c == '<' || c == '>' || c == '"' || c == ' ' {
      assert EncodeChar(c) <= s;
      assert s[1] == EncodeChar(c)[1];
    } else {
      assert s[0] == c;
    }
  }

  /** Encoding loses nothing: decoding gives the original back. */
  lemma {:induction false} RoundTrip(s: string)
    ensures Decode(AsEncodedHTML(s)) == s
  {
    PassesFuse(s);
    if s == "" {
    } else {
      PassesFuse(s[1..]);
      RoundTrip(s[1..]);
      DecodeFirst(s[0], EncodeEach(s[1..]));
    }
  }

  lemma Injective(s: string, t: string)
    requires AsEncodedHTML(s) == AsEncodedHTML(t)
    ensures s == t
  {
    RoundTrip(s);
    RoundTrip(t);
  }

  predicate NeedsEntity(c: char) {
    c == '<' || c == '>' || c == '"' || c == ' '
  }

  /**
   The ampersand has to come first: replacing it last agrees with the encoding only on strings without any of the
   other four characters, because it would escape their entities again.
   */
  lemma AmpersandFirst(s: string)
    ensures ReplaceAll(Entities(s), '&', "&amp;") == AsEncodedHTML(s) <==> forall c <- s :: !NeedsEntity(c)
  {
    LateAmpersandLength(s);
    PassesFuse(s);
    if forall c <- s :: !NeedsEntity(c) {
      EntitiesAbsent(s);
      ReplaceAllAmpersand(s);
      EntitiesAbsent(ReplaceAll(s, '&', "&amp;"));
    }
  }

  lemma {:induction false} ReplaceAllAmpersand(s: string)
    requires forall c <- s :: !NeedsEntity(c)
    ensures forall c <- ReplaceAll(s, '&', "&amp;") :: !NeedsEntity(c)
  {
    if s == "" {
    } else {
      ReplaceAllAmpersand(s[1..]);
    }
  }

  lemma LateAmpersandChar(c: char)
    ensures var late := ReplaceAll(Entities([c]), '&', "&amp;");
            |late| == |EncodeChar(c)| + if NeedsEntity(c) then 4 else 0
  {
    if c == '&' {
      EntitiesAbsent([c]);
      ReplaceOne(c, "&amp;");
    } else if NeedsEntity(c) {
      EncodedChar(c);
      ReplaceAllAbsent([c], '&', "&amp;");
      var entity := EncodeChar(c);
      assert entity == "&" + entity[1..];
      ReplaceAllConcat("&", entity[1..], '&', "&amp;");
      ReplaceOne('&', "&amp;");
      ReplaceAllAbsent(entity[1..], '&', "&amp;");
    } else {
      EntitiesAbsent([c]);
      ReplaceAllAbsent([c], '&', "&amp;");
    }
  }

  lemma {:induction false} LateAmpersandLength(s: string)
    ensures |ReplaceAll(Entities(s), '&', "&amp;")| >= |EncodeEach(s)|
    ensures |ReplaceAll(Entities(s), '&', "&amp;")| == |EncodeEach(s)| ==> forall c <- s :: !NeedsEntity(c)
  {
    if s == "" {
    } else {
      assert s == [s[0]] + s[1..];
      EntitiesConcat([s[0]], s[1..]);
      ReplaceAllConcat(Entities([s[0]]), Entities(s[1..]), '&', "&amp;");
      LateAmpersandChar(s[0]);
      LateAmpersandLength(s[1..]);
    }
  }
}

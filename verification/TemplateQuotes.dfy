/** The fix of `no-unneeded-backticks` (packages/@n8n/eslint-config/local-rules.js:112-143). */
module TemplateQuotes {
  import opened Wrappers

  /** A backslash before every quote that does not directly follow one; `prev` is the character before `raw`. */
  function EscapeAfter(prev: char, raw: string): string
    decreases |raw|
  {
    if raw == "" then ""
    else (if raw[0] == '\'' && prev != '\\' then "\\'" else [raw[0]]) + EscapeAfter(raw[0], raw[1..])
  }

  function EscapeQuotes(raw: string): string {
    EscapeAfter('x', raw)
  }

  // ----- Reference: a scanner of quoted text -----

  /** What an escape sequence stands for; the quote and the backslash stand for themselves. */
  type Escapes = f: char -> char | f('\'') == '\'' && f('\\') == '\\' witness (c: char) => c

  /**
   Reads literal text from left to right: a backslash takes the next character with it. Nothing is read if the text
   ends inside an escape or, when the text stands between single quotes, if a quote stands by itself.
   */
  function Scan(text: string, quoted: bool, esc: Escapes): Option<string>
    decreases |text|
  {
    if text == "" then Some("")
    else if text[0] == '\\' then
      if |text| == 1 then None else Prepend(esc(text[1]), Scan(text[2..], quoted, esc))
    else if quoted && text[0] == '\'' then None
    else Prepend(text[0], Scan(text[1..], quoted, esc))
  }

  function Prepend(c: char, o: Option<string>): Option<string> {
    if o.Some? then Some([c] + o.value) else None
  }

  /** The length of the run of backslashes that ends a text. */
  function BackslashesAtEnd(text: string): nat {
    if text == "" || text[|text| - 1] != '\\' then 0 else 1 + BackslashesAtEnd(text[..|text| - 1])
  }

  /** A quote that follows a non-zero, even number of backslashes. */
  predicate IsMissed(raw: string, i: nat)
    requires i < |raw|
  {
    raw[i] == '\'' && BackslashesAtEnd(raw[..i]) > 0 && BackslashesAtEnd(raw[..i]) % 2 == 0
  }

  ghost predicate HasMissedQuote(raw: string) {
    exists i :: 0 <= i < |raw| && IsMissed(raw, i)
  }

  // ----- Lemmas -----

  /** Whether a quote is missed in a text that follows a run of so many backslashes. */
  predicate MissesAfter(run: nat, raw: string)
    decreases |raw|
  {
    raw != "" &&
    ((raw[0] == '\'' && run > 0 && run % 2 == 0) || MissesAfter(if raw[0] == '\\' then run + 1 else 0, raw[1..]))
  }

  lemma {:induction false} MissesAfterPrefix(prefix: string, raw: string)
    ensures MissesAfter(BackslashesAtEnd(prefix), raw) <==>
            exists i :: |prefix| <= i < |prefix + raw| && IsMissed(prefix + raw, i)
    decreases |raw|
  {
    var all := prefix + raw;
    if raw != "" {
      var longer := prefix + [raw[0]];
      assert longer + raw[1..] == all;
      assert longer[..|longer| - 1] == prefix;
      MissesAfterPrefix(longer, raw[1..]);
      assert all[..|prefix|] == prefix;
      assert IsMissed(all, |prefix|) <==>
        raw[0] == '\'' && BackslashesAtEnd(prefix) > 0 && BackslashesAtEnd(prefix) % 2 == 0;
    }
  }

  lemma {:induction false} ScanEscaped(run: nat, prev: char, raw: string, esc: Escapes)
    requires run % 2 == 0 && (prev == '\\' <==> run > 0)
    ensures Scan(EscapeAfter(prev, raw), true, esc) == if MissesAfter(run, raw) then None else Scan(raw, false, esc)
    decreases |raw|
  {
    var escaped := EscapeAfter(prev, raw);
    if raw == "" {
    } else if raw[0] == '\\' {
      if |raw| > 1 {
        var c, rest := raw[1], raw[2..];
        assert raw[1..][0] == c && raw[1..][1..] == rest;
        assert EscapeAfter('\\', raw[1..]) == [c] + EscapeAfter(c, rest);
        assert escaped == ['\\'] + ([c] + EscapeAfter(c, rest));
        assert escaped[2..] == EscapeAfter(c, rest);
        ScanEscaped(if c == '\\' then run + 2 else 0, c, rest, esc);
      }
    } else if raw[0] == '\'' && prev != '\\' {
      assert escaped[2..] == EscapeAfter('\'', raw[1..]);
      ScanEscaped(0, '\'', raw[1..], esc);
    } else if raw[0] != '\'' {
      assert escaped[1..] == EscapeAfter(raw[0], raw[1..]);
      ScanEscaped(0, raw[0], raw[1..], esc);
    }
  }

  // ----- Main results -----

  /**
   Between single quotes the fixed text reads as the template text did exactly if no quote is missed; a missed quote
   ends the literal early. `esc` says what each escape stands for (sections 12.9.4 and 12.9.6 of ECMA-262).
   */
  lemma FixReadsTheSame(raw: string, esc: Escapes)
    ensures Scan(EscapeQuotes(raw), true, esc) == if HasMissedQuote(raw) then None else Scan(raw, false, esc)
  {
    ScanEscaped(0, 'x', raw, esc);
    MissesAfterPrefix("", raw);
    assert "" + raw == raw;
  }

  lemma {:induction false} EscapeAfterTwice(prev: char, raw: string)
    ensures EscapeAfter(prev, EscapeAfter(prev, raw)) == EscapeAfter(prev, raw)
    decreases |raw|
  {
    if raw == "" {
    } else {
      var escaped, rest := EscapeAfter(prev, raw), EscapeAfter(raw[0], raw[1..]);
      EscapeAfterTwice(raw[0], raw[1..]);
      if raw[0] == '\'' && prev != '\\' {
        assert escaped[1..] == "'" + rest && escaped[1..][1..] == rest;
      } else {
        assert escaped[1..] == rest;
      }
    }
  }

  /** Fixing a text that has been fixed changes nothing. */
  lemma EscapingIsIdempotent(raw: string)
    ensures EscapeQuotes(EscapeQuotes(raw)) == EscapeQuotes(raw)
  {
    EscapeAfterTwice('x', raw);
  }

  /** The shortest text the fix gets wrong: an escaped backslash before a quote. */
  lemma MissedQuoteExample(esc: Escapes)
    ensures Scan("\\\\'", false, esc) == Some("\\'")
    ensures Scan(EscapeQuotes("\\\\'"), true, esc) == None
  {
    var raw := "\\\\'";
    FixReadsTheSame(raw, esc);
    assert raw[..2] == "\\\\" && raw[..2][..1] == "\\" && raw[..1][..0] == "";
    assert BackslashesAtEnd(raw[..1]) == 1;
    assert BackslashesAtEnd(raw[..2]) == 2;
    assert IsMissed(raw, 2);
    var quote := raw[2..];
    assert quote == ['\''] && quote[1..] == "";
    assert Scan(quote, false, esc) == Prepend('\'', Some("")) == Some(['\''] + "");
    assert Scan(raw, false, esc) == Prepend('\\', Scan(quote, false, esc));
    assert ['\\'] + (['\''] + "") == "\\'";
  }
}

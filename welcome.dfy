/**
 * The greeting of src/components/WelcomeMsg.tsx, and the value it reads: the
 * user's name, stored by the sign-in page as `JSON.stringify(name)`
 * (src/app/page.tsx).
 */
module Welcome {
  import opened Wrappers

  const Quote := '"'
  const Backslash := '\\'

  /**
   * `s.replace(/^"|"$/g, '')` as the regular expression engine runs it: scan
   * left to right from position `p`; `^"` can only match the quote at position
   * 0, `"$` only the quote at the last position, and a character both could
   * match is removed once.
   */
  function ReplaceFrom(s: string, p: nat): string
    requires p <= |s|
    decreases |s| - p
  {
    if p == |s| then []
    else if (p == 0 || p == |s| - 1) && s[p] == Quote then ReplaceFrom(s, p + 1)
    else [s[p]] + ReplaceFrom(s, p + 1)
  }

  function StripQuotes(s: string): string {
    ReplaceFrom(s, 0)
  }

  /** Between the two ends, the scan copies the text unchanged. */
  lemma {:induction false} ReplaceInterior(s: string, p: nat)
    requires 1 <= p <= |s| - 1
    ensures ReplaceFrom(s, p) == s[p..|s| - 1] + (if s[|s| - 1] == Quote then [] else [s[|s| - 1]])
    decreases |s| - p
  {
    if p < |s| - 1 {
      ReplaceInterior(s, p + 1);
      assert s[p..|s| - 1] == [s[p]] + s[p + 1..|s| - 1];
    } else {
      assert ReplaceFrom(s, p + 1) == [];
    }
  }

  /**
   * What the replace does: at most one leading and one trailing quote go,
   * everything in between stays. `lead` is 1 when the text starts with a
   * quote; `trail` is 1 when a quote remains at the end after that.
   */
  lemma StripQuotesRemovesEnds(s: string)
    ensures var lead := if |s| > 0 && s[0] == Quote then 1 else 0;
            var trail := if |s| > lead && s[|s| - 1] == Quote then 1 else 0;
            StripQuotes(s) == s[lead..|s| - trail]
  {
    if |s| == 1 {
      assert ReplaceFrom(s, 1) == [];
    } else if |s| >= 2 {
      ReplaceInterior(s, 1);
      if s[0] != Quote {
        assert s[0..|s| - 1] == [s[0]] + s[1..|s| - 1];
        assert s[..|s| - 1] + [s[|s| - 1]] == s;
      } else {
        assert s[1..|s| - 1] + [s[|s| - 1]] == s[1..];
      }
    }
  }

  /** Text with no quote at either end is shown as it is. */
  lemma UnquotedUnchanged(s: string)
    requires s == [] || (s[0] != Quote && s[|s| - 1] != Quote)
    ensures StripQuotes(s) == s
  {
    StripQuotesRemovesEnds(s);
  }

  /** A lone quote becomes the empty text. */
  lemma LoneQuote()
    ensures StripQuotes([Quote]) == []
  {
    StripQuotesRemovesEnds([Quote]);
  }

  /** Quoting and stripping are inverse, whatever quotes the text itself contains. */
  lemma StripQuoted(text: string)
    ensures StripQuotes([Quote] + text + [Quote]) == text
  {
    var s := [Quote] + text + [Quote];
    StripQuotesRemovesEnds(s);
    assert s[1..|s| - 1] == text;
  }

  /**
   * The effect: `sessionStorage.getItem('user')!.replace(...)`, kept only when
   * non-empty; the name starts as ''. A missing entry (`null`) throws, shown
   * as `None`.
   */
  function LoadUsername(stored: Option<string>): (username: Option<string>)
    ensures stored.None? <==> username.None?
  {
    if stored.None? then None
    else
      var clean := StripQuotes(stored.value);
      Some(if clean != [] then clean else "")
  }

  /** The non-empty guard changes nothing: the name shown is always the stripped text. */
  lemma GuardIsRedundant(stored: string)
    ensures LoadUsername(Some(stored)) == Some(StripQuotes(stored))
  {
  }

  // ---------------------------------------------------------------------------
  // JSON.stringify of a string, as the sign-in page stores the name

  function HexDigit(d: nat): char
    requires d < 16
  {
    if d < 10 then ('0' as int + d) as char else ('a' as int + d - 10) as char
  }

  /** The escape JSON.stringify writes for one character (lower-case hex for `\u` escapes). */
  function EscapeChar(c: char): string {
    if c == Quote then [Backslash, Quote]
    else if c == Backslash then [Backslash, Backslash]
    else if c == 8 as char then [Backslash, 'b']
    else if c == 9 as char then [Backslash, 't']
    else if c == 10 as char then [Backslash, 'n']
    else if c == 12 as char then [Backslash, 'f']
    else if c == 13 as char then [Backslash, 'r']
    else if (c as int) < 0x20 then [Backslash, 'u', '0', '0', HexDigit(c as int / 16), HexDigit(c as int % 16)]
    else [c]
  }

  function Escape(s: string): string
    decreases |s|
  {
    if s == [] then [] else EscapeChar(s[0]) + Escape(s[1..])
  }

  /** `JSON.stringify(name)`. */
  function JsonStringify(name: string): string {
    [Quote] + Escape(name) + [Quote]
  }

  /** A character JSON.stringify writes as it is. */
  predicate Plain(c: char) {
    c != Quote && c != Backslash && (c as int) >= 0x20
  }

  lemma {:induction false} EscapeLength(s: string)
    ensures |Escape(s)| >= |s|
    ensures |Escape(s)| == |s| <==> forall k :: 0 <= k < |s| ==> Plain(s[k])
    ensures (forall k :: 0 <= k < |s| ==> Plain(s[k])) ==> Escape(s) == s
    decreases |s|
  {
    if s != [] {
      EscapeLength(s[1..]);
      assert forall k :: 1 <= k < |s| ==> s[k] == s[1..][k - 1];
      if forall k :: 0 <= k < |s| ==> Plain(s[k]) {
        assert forall k :: 0 <= k < |s[1..]| ==> Plain(s[1..][k]);
        assert s == [s[0]] + s[1..];
      }
    }
  }

  /**
   * As written: the greeting shows the stored JSON text with only its outer
   * quotes removed, which is the name itself exactly when JSON.stringify had
   * nothing to escape in it.
   */
  lemma ShownNameIsEscaped(name: string)
    ensures LoadUsername(Some(JsonStringify(name))) == Some(Escape(name))
    ensures Escape(name) == name <==> forall k :: 0 <= k < |name| ==> Plain(name[k])
  {
    StripQuoted(Escape(name));
    EscapeLength(name);
  }

  /** As written, a name with a quote in it: `a"b` is greeted as `a\"b`. */
  lemma QuoteInNameShownEscaped()
    ensures LoadUsername(Some(JsonStringify("a\"b"))) == Some("a\\\"b")
  {
    var name := "a\"b";
    ShownNameIsEscaped(name);
    assert name[1..][1..] == "b" && name[1..][1..][1..] == [];
    assert Escape("b") == "b";
    assert Escape(name[1..]) == [Backslash, Quote] + "b";
    assert Escape(name) == "a\\\"b";
  }

  // ---------------------------------------------------------------------------
  // The correction: read the stored value back with JSON.parse

  function HexValue(c: char): (v: Option<nat>)
    ensures v.Some? ==> v.value < 16
  {
    if '0' <= c <= '9' then Some(c as int - '0' as int)
    else if 'a' <= c <= 'f' then Some(c as int - 'a' as int + 10)
    else if 'A' <= c <= 'F' then Some(c as int - 'A' as int + 10)
    else None
  }

  lemma HexRoundTrip(d: nat)
    requires d < 16
    ensures HexValue(HexDigit(d)) == Some(d)
  {
  }

  /** The value of four hex digits, when they are hex digits. */
  function HexCode(t: string): Option<nat>
    requires |t| == 4
  {
    if HexValue(t[0]).Some? && HexValue(t[1]).Some? && HexValue(t[2]).Some? && HexValue(t[3]).Some? then
      Some(((HexValue(t[0]).value * 16 + HexValue(t[1]).value) * 16 + HexValue(t[2]).value) * 16 + HexValue(t[3]).value)
    else None
  }

  /** The character after a backslash in a JSON string, for the one-letter escapes. */
  function ShortEscape(e: char): Option<char> {
    if e == Quote then Some(Quote)
    else if e == Backslash then Some(Backslash)
    else if e == '/' then Some('/')
    else if e == 'b' then Some(8 as char)
    else if e == 't' then Some(9 as char)
    else if e == 'n' then Some(10 as char)
    else if e == 'f' then Some(12 as char)
    else if e == 'r' then Some(13 as char)
    else None
  }

  function Prepend(c: char, rest: Option<string>): Option<string> {
    if rest.Some? then Some([c] + rest.value) else None
  }

  /** The body of a JSON string literal, unescaped; `None` where JSON.parse would throw. */
  function Unescape(t: string): Option<string>
    decreases |t|
  {
    if t == [] then Some([])
    else if t[0] == Backslash then
      if |t| < 2 then None
      else if t[1] == 'u' then
        if |t| < 6 then None
        else
          var code := HexCode(t[2..6]);
          if code.Some? && (code.value < 0xD800 || 0xE000 <= code.value) then
            Prepend(code.value as char, Unescape(t[6..]))
          else None
      else if ShortEscape(t[1]).Some? then Prepend(ShortEscape(t[1]).value, Unescape(t[2..]))
      else None
    else if t[0] == Quote || (t[0] as int) < 0x20 then None
    else Prepend(t[0], Unescape(t[1..]))
  }

  /** `JSON.parse(s)` for a JSON string literal. */
  function JsonParseString(s: string): Option<string> {
    if |s| >= 2 && s[0] == Quote && s[|s| - 1] == Quote then Unescape(s[1..|s| - 1]) else None
  }

  lemma UnescapeOne(c: char, rest: string)
    ensures Unescape(EscapeChar(c) + rest) == Prepend(c, Unescape(rest))
  {
    var t := EscapeChar(c) + rest;
    if (c as int) < 0x20 && c != 8 as char && c != 9 as char && c != 10 as char && c != 12 as char && c != 13 as char {
      var hi, lo := c as int / 16, c as int % 16;
      HexRoundTrip(hi);
      HexRoundTrip(lo);
      assert t[2..6] == ['0', '0', HexDigit(hi), HexDigit(lo)];
      assert HexCode(t[2..6]) == Some(c as int);
      assert t[6..] == rest;
    } else if c == Quote || c == Backslash || (c as int) < 0x20 {
      assert t[2..] == rest;
    } else {
      assert t[1..] == rest;
    }
  }

  lemma {:induction false} UnescapeEscape(s: string)
    ensures Unescape(Escape(s)) == Some(s)
    decreases |s|
  {
    if s != [] {
      UnescapeOne(s[0], Escape(s[1..]));
      UnescapeEscape(s[1..]);
      assert [s[0]] + s[1..] == s;
    }
  }

  /** Corrected: JSON.parse undoes JSON.stringify for every name. */
  lemma ParseUndoesStringify(name: string)
    ensures JsonParseString(JsonStringify(name)) == Some(name)
  {
    var s := JsonStringify(name);
    assert s[1..|s| - 1] == Escape(name);
    UnescapeEscape(name);
  }

  /** The corrected effect: parse the stored JSON instead of stripping quotes. */
  function LoadUsernameParsed(stored: Option<string>): (username: Option<string>)
    ensures forall name :: stored == Some(JsonStringify(name)) ==> username == Some(name)
  {
    assert forall name :: JsonParseString(JsonStringify(name)) == Some(name) by {
      forall name: string ensures JsonParseString(JsonStringify(name)) == Some(name) {
        ParseUndoesStringify(name);
      }
    }
    if stored.None? then None
    else
      var parsed := JsonParseString(stored.value);
      if parsed.Some? && parsed.value != [] then Some(parsed.value) else Some("")
  }
}

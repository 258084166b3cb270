/** What becomes of a key that is pasted into the query string of a URL without escaping.

Reads and deletes send `?key=` followed by the key itself. The receiver splits the query at `&`, drops
pairs with `;`, decodes `+` and `%`, and never sees what follows `#`; a space or a control character
makes the request fail.
*/
module Query {
  import opened Base

  /** The parts of `s` before and after the first `c`; the flag tells whether there is one. */
  function Cut(s: string, c: char): (r: (string, string, bool))
    ensures r.2 <==> c in s
    ensures r.2 ==> s == r.0 + [c] + r.1
    ensures !r.2 ==> r.0 == s && r.1 == ""
    ensures c !in r.0
  {
    if s == "" then ("", "", false)
    else if s[0] == c then ("", s[1..], true)
    else
      var (before, after, found) := Cut(s[1..], c);
      ([s[0]] + before, after, found)
  }

  // ---------------------------------------------------------------- decoding

  function HexValue(c: char): Option<int> {
    if '0' <= c <= '9' then Some(c as int - '0' as int)
    else if 'a' <= c <= 'f' then Some(c as int - 'a' as int + 10)
    else if 'A' <= c <= 'F' then Some(c as int - 'A' as int + 10)
    else None
  }

  /** Decodes `+` and `%`; fails on a `%` without two hexadecimal digits. */
  function Unescape(s: string): Option<string> {
    if s == "" then Some("")
    else if s[0] == '%' then
      if |s| < 3 || HexValue(s[1]).None? || HexValue(s[2]).None? then None
      else
        match Unescape(s[3..])
        case None => None
        case Some(rest) => Some([(HexValue(s[1]).value * 16 + HexValue(s[2]).value) as char] + rest)
    else
      match Unescape(s[1..])
      case None => None
      case Some(rest) => Some([if s[0] == '+' then ' ' else s[0]] + rest)
  }

  /** The value that one pair of a query gives to `name`. */
  function PairValue(name: string, pair: string): Option<string> {
    if ';' in pair then None
    else
      var (n, value, _) := Cut(pair, '=');
      if Unescape(n) == Some(name) then Unescape(value) else None
  }

  /** The first value of `name` in a query, or the empty string. */
  function Get(name: string, query: string): string
    decreases |query|
  {
    var (pair, rest, more) := Cut(query, '&');
    match PairValue(name, pair)
    case Some(value) => value
    case None => if more then Get(name, rest) else ""
  }

  predicate IsControl(c: char) {
    c < ' ' || c == '\U{007F}'
  }

  predicate Sendable(query: string) {
    forall i :: 0 <= i < |query| ==> query[i] != ' ' && !IsControl(query[i])
  }

  /** What a handler reads for `name` when a client pastes `text` after `name=`, or `None` when the request
      does not reach it. */
  function Received(name: string, text: string): Option<string> {
    var (sent, fragment, _) := Cut(text, '#');
    if !Sendable(sent) || Unescape(fragment).None? then None else Some(Get(name, name + "=" + sent))
  }

  /** What becomes of a key. */
  function Arrives(text: string): Option<string> {
    Received("key", text)
  }

  // ---------------------------------------------------------------- which keys arrive

  /** No character with a meaning in a query string. */
  predicate Plain(text: string) {
    forall i :: 0 <= i < |text| ==> text[i] !in "&;+%# " && !IsControl(text[i])
  }

  lemma {:induction false} UnescapeKeeps(s: string)
    ensures Unescape(s).Some? ==> |Unescape(s).value| <= |s|
    ensures Unescape(s) == Some(s) <==> '%' !in s && '+' !in s
  {
    if s == "" {
    } else if s[0] == '%' {
      if |s| >= 3 {
        UnescapeKeeps(s[3..]);
      }
    } else {
      UnescapeKeeps(s[1..]);
      assert s == [s[0]] + s[1..];
    }
  }

  /** Cutting is determined by its parts. */
  lemma {:induction false} CutAt(before: string, c: char, after: string)
    requires c !in before
    ensures Cut(before + [c] + after, c) == (before, after, true)
  {
    var s := before + [c] + after;
    if before == "" {
      assert s[1..] == after;
    } else {
      CutAt(before[1..], c, after);
      assert s[1..] == before[1..] + [c] + after && before == [before[0]] + before[1..];
    }
  }

  lemma {:induction false} CutNothing(s: string, c: char)
    requires c !in s
    ensures Cut(s, c) == (s, "", false)
  {
  }

  lemma PrefixedAt(name: string, x: string, c: char, rest: string)
    requires c !in name && c !in x
    ensures Cut(name + (x + [c] + rest), c) == (name + x, rest, true)
  {
    Regrouped(name, x, c, rest);
    CutAt(name + x, c, rest);
  }

  lemma Regrouped(name: string, x: string, c: char, rest: string)
    ensures name + (x + [c] + rest) == (name + x) + [c] + rest
  {
  }

  lemma CutPrefixed(name: string, s: string, c: char)
    requires c !in name
    ensures Cut(name + s, c) == (name + Cut(s, c).0, Cut(s, c).1, Cut(s, c).2)
  {
    var (x, rest, more) := Cut(s, c);
    if more {
      PrefixedAt(name, x, c, rest);
    } else {
      CutNothing(name + s, c);
    }
  }

  /** A name that needs no decoding. */
  predicate IsName(name: string) {
    '=' !in name && ';' !in name && '&' !in name && '%' !in name && '+' !in name
  }

  lemma NamedPair(name: string, x: string)
    requires IsName(name)
    ensures PairValue(name, name + "=" + x) == if ';' in x then None else Unescape(x)
  {
    CutAt(name, '=', x);
    UnescapeKeeps(name);
  }

  lemma {:induction false} ValueIsShort(name: string, query: string)
    ensures |Get(name, query)| <= |query|
    decreases |query|
  {
    var (pair, rest, more) := Cut(query, '&');
    var (_, value, _) := Cut(pair, '=');
    UnescapeKeeps(value);
    if more {
      ValueIsShort(name, rest);
    }
  }

  /** The value that arrives is at most as long as the text, and is the text only if nothing was cut off,
      decoded or dropped. */
  lemma ValueSent(name: string, sent: string)
    requires IsName(name)
    ensures |Get(name, name + "=" + sent)| <= |sent|
    ensures Get(name, name + "=" + sent) == sent <==> '&' !in sent && ';' !in sent && '%' !in sent && '+' !in sent
  {
    var (x, rest, more) := Cut(sent, '&');
    CutPrefixed(name + "=", sent, '&');
    NamedPair(name, x);
    UnescapeKeeps(x);
    if more {
      ValueIsShort(name, rest);
    }
  }

  lemma ReceivedUnchangedIff(name: string, text: string)
    requires IsName(name)
    ensures Received(name, text) == Some(text) <==> Plain(text)
  {
    var (sent, fragment, _) := Cut(text, '#');
    ValueSent(name, sent);
    UnescapeKeeps(fragment);
  }

  /** A key arrives as it was sent exactly when it has no character with a meaning in a query. */
  lemma ArrivesUnchangedIff(text: string)
    ensures Arrives(text) == Some(text) <==> Plain(text)
  {
    ReceivedUnchangedIff("key", text);
  }

  lemma PlainJoin(a: string, b: string, text: string)
    requires Plain(a) && Plain(b) && text == a + "&" + b
    ensures Sendable(text) && '#' !in text
  {
  }

  lemma ValueBeforeAmpersand(name: string, a: string, b: string, text: string)
    requires IsName(name) && Plain(a) && text == a + "&" + b
    ensures Get(name, name + "=" + text) == a
  {
    CutPrefixed(name + "=", text, '&');
    CutAt(a, '&', b);
    NamedPair(name, a);
    UnescapeKeeps(a);
  }

  lemma ReceivedBeforeAmpersand(name: string, a: string, b: string, text: string)
    requires IsName(name) && Plain(a) && Plain(b) && text == a + "&" + b
    ensures Received(name, text) == Some(a)
  {
    PlainJoin(a, b, text);
    ValueBeforeAmpersand(name, a, b, text);
    CutNothing(text, '#');
  }

  /** An ampersand cuts a key short, so that it arrives as another key. */
  lemma CutKeyArrivesAsAnother(a: string, b: string)
    requires Plain(a) && Plain(b)
    ensures Arrives(a + "&" + b) == Some(a)
  {
    ReceivedBeforeAmpersand("key", a, b, a + "&" + b);
  }

  // ---------------------------------------------------------------- what each special character does

  /** Text that is cut or dropped nowhere arrives decoded. */
  lemma ReceivedDecoded(name: string, text: string)
    requires IsName(name) && Sendable(text) && '#' !in text && '&' !in text && ';' !in text
    ensures Received(name, text) == Some(match Unescape(text) case Some(value) => value case None => "")
  {
    CutNothing(text, '#');
    CutPrefixed(name + "=", text, '&');
    CutNothing(text, '&');
    NamedPair(name, text);
  }

  lemma JoinPast(first: char, rest: string, value: string)
    ensures [first] + (rest + value) == ([first] + rest) + value
  {
  }

  lemma {:induction false} UnescapeJoin(a: string, b: string)
    requires '%' !in a && '+' !in a
    ensures Unescape(a + b) == match Unescape(b) case Some(value) => Some(a + value) case None => None
  {
    if a == "" {
      assert a + b == b;
      assert forall value: string :: a + value == value;
    } else {
      UnescapeJoin(a[1..], b);
      assert (a + b)[0] == a[0] && (a + b)[1..] == a[1..] + b && a == [a[0]] + a[1..];
      if Unescape(b).Some? {
        JoinPast(a[0], a[1..], Unescape(b).value);
      }
    }
  }

  lemma JoinedChars(a: string, c: char, b: string, d: char)
    requires d != c && d !in a && d !in b
    ensures d !in a + ([c] + b)
  {
  }

  /** Two plain texts joined by one character. */
  lemma JoinedByOne(a: string, c: char, b: string)
    requires Plain(a) && Plain(b) && c != ' ' && !IsControl(c)
    ensures var text := a + ([c] + b);
            && Sendable(text) && (c != '#' ==> '#' !in text) && (c != '&' ==> '&' !in text)
            && (c != ';' ==> ';' !in text) && c in text
  {
    var text := a + ([c] + b);
    assert text[|a|] == c;
  }

  lemma ReceivedPlus(name: string, a: string, b: string)
    requires IsName(name) && Plain(a) && Plain(b)
    ensures Received(name, a + (['+'] + b)) == Some(a + ([' '] + b))
  {
    UnescapeKeeps(b);
    assert (['+'] + b)[1..] == b;
    UnescapeJoin(a, ['+'] + b);
    JoinedByOne(a, '+', b);
    ReceivedDecoded(name, a + (['+'] + b));
  }

  /** A plus sign arrives as a space. */
  lemma PlusArrivesAsSpace(a: string, b: string)
    requires Plain(a) && Plain(b)
    ensures Arrives(a + (['+'] + b)) == Some(a + ([' '] + b))
  {
    ReceivedPlus("key", a, b);
  }

  lemma ReceivedSemicolon(name: string, text: string)
    requires IsName(name) && Sendable(text) && ';' in text && '#' !in text && '&' !in text
    ensures Received(name, text) == Some("")
  {
    CutNothing(text, '#');
    CutNothing(text, '&');
    CutPrefixed(name + "=", text, '&');
    NamedPair(name, text);
  }

  /** A semicolon makes the receiver drop the key. */
  lemma SemicolonEmptiesKey(a: string, b: string)
    requires Plain(a) && Plain(b)
    ensures Arrives(a + ([';'] + b)) == Some("")
  {
    JoinedByOne(a, ';', b);
    ReceivedSemicolon("key", a + ([';'] + b));
  }

  lemma LaterPair(name: string, a: string, b: string, rest: string)
    requires IsName(name) && Plain(a) && Plain(b) && rest == name + "=" + b
    ensures Get(name, rest) == b
    ensures Get(name, name + "=" + (a + [';'] + ['&'] + rest)) == b
  {
    ValueSent(name, b);
    JoinedChars(a, ';', [], '&');
    assert a + ([';'] + []) == a + [';'];
    CutAt(a + [';'], '&', rest);
    CutPrefixed(name + "=", a + [';'] + ['&'] + rest, '&');
    NamedPair(name, a + [';']);
    assert (a + [';'])[|a|] == ';';
  }

  /** Sent as it is, up to its end. */
  predicate GoesWhole(s: string) {
    Sendable(s) && '#' !in s
  }

  lemma PlainGoesWhole(s: string)
    requires Plain(s)
    ensures GoesWhole(s)
  {
  }

  lemma WholeJoin(a: string, b: string)
    requires GoesWhole(a) && GoesWhole(b)
    ensures GoesWhole(a + b)
  {
  }

  lemma ReceivedLaterPair(name: string, a: string, b: string, rest: string)
    requires IsName(name) && Plain(name) && Plain(a) && Plain(b) && rest == name + "=" + b
    ensures Received(name, a + [';'] + ['&'] + rest) == Some(b)
  {
    var text := a + [';'] + ['&'] + rest;
    PlainGoesWhole(name);
    PlainGoesWhole(a);
    PlainGoesWhole(b);
    WholeJoin(name, "=");
    WholeJoin(name + "=", b);
    WholeJoin(a, [';']);
    WholeJoin(a + [';'], ['&']);
    WholeJoin(a + [';'] + ['&'], rest);
    LaterPair(name, a, b, rest);
    CutNothing(text, '#');
  }

  /** A pair that is dropped gives way to a later one with the same name. */
  lemma LaterPairTakesOver(a: string, b: string)
    requires Plain(a) && Plain(b)
    ensures Arrives(a + [';'] + ['&'] + ("key" + "=" + b)) == Some(b)
  {
    ReceivedLaterPair("key", a, b, "key" + "=" + b);
  }

  lemma ReceivedBeforeHash(name: string, a: string, b: string)
    requires IsName(name) && Plain(a) && Plain(b)
    ensures Received(name, a + ['#'] + b) == Some(a)
  {
    CutAt(a, '#', b);
    UnescapeKeeps(b);
    CutNothing(a, '#');
    ReceivedUnchangedIff(name, a);
  }

  /** What follows a hash sign is not sent. */
  lemma HashCutsKey(a: string, b: string)
    requires Plain(a) && Plain(b)
    ensures Arrives(a + ['#'] + b) == Some(a)
  {
    ReceivedBeforeHash("key", a, b);
  }

  /** A request for a key with a space or a control character does not go out. */
  lemma SpacesAreNotSent(a: string, b: string, c: char)
    requires Plain(a) && Plain(b) && (c == ' ' || IsControl(c))
    ensures Arrives(a + ([c] + b)).None?
  {
    var text := a + ([c] + b);
    assert text[|a|] == c;
    JoinedChars(a, c, b, '#');
    CutNothing(text, '#');
  }

  // ---------------------------------------------------------------- what would make every key arrive

  predicate PlainChar(c: char) {
    c !in "&;+%# " && !IsControl(c)
  }

  function Hex(d: int): (c: char)
    requires 0 <= d < 16
    ensures HexValue(c) == Some(d)
  {
    if d < 10 then ('0' as int + d) as char else ('A' as int + d - 10) as char
  }

  predicate OneByte(s: string) {
    forall i :: 0 <= i < |s| ==> s[i] as int < 256
  }

  /** Each character of one byte that has a meaning in a query is written as a percent sign and two digits. */
  function Escape(s: string): string
    requires OneByte(s)
  {
    if s == "" then ""
    else
      (if PlainChar(s[0]) then [s[0]] else ['%', Hex(s[0] as int / 16), Hex(s[0] as int % 16)]) + Escape(s[1..])
  }

  predicate Safe(s: string) {
    forall i :: 0 <= i < |s| ==> PlainChar(s[i]) || s[i] == '%'
  }

  lemma HexIsPlain(d: int)
    requires 0 <= d < 16
    ensures PlainChar(Hex(d))
  {
  }

  lemma SafeJoin(a: string, b: string)
    requires Safe(a) && Safe(b)
    ensures Safe(a + b)
  {
  }

  lemma {:induction false} EscapeIsSafe(s: string)
    requires OneByte(s)
    ensures Safe(Escape(s))
  {
    if s == "" {
    } else {
      HexIsPlain(s[0] as int / 16);
      HexIsPlain(s[0] as int % 16);
      EscapeIsSafe(s[1..]);
      SafeJoin(if PlainChar(s[0]) then [s[0]] else ['%', Hex(s[0] as int / 16), Hex(s[0] as int % 16)], Escape(s[1..]));
    }
  }

  lemma UnescapeHex(c: char, rest: string)
    requires c as int < 256
    ensures Unescape(['%', Hex(c as int / 16), Hex(c as int % 16)] + rest) ==
            match Unescape(rest) case Some(value) => Some([c] + value) case None => None
  {
    var s := ['%', Hex(c as int / 16), Hex(c as int % 16)] + rest;
    assert s[3..] == rest;
    assert (c as int / 16 * 16 + c as int % 16) as char == c;
  }

  lemma {:induction false} UnescapeEscape(s: string)
    requires OneByte(s)
    ensures Unescape(Escape(s)) == Some(s)
  {
    if s == "" {
    } else {
      UnescapeEscape(s[1..]);
      assert s == [s[0]] + s[1..];
      if PlainChar(s[0]) {
        assert ([s[0]] + Escape(s[1..]))[1..] == Escape(s[1..]);
      } else {
        UnescapeHex(s[0], Escape(s[1..]));
      }
    }
  }

  lemma SafeIsWhole(s: string)
    requires Safe(s)
    ensures Sendable(s) && '#' !in s && '&' !in s && ';' !in s
  {
  }

  lemma ReceivedSafe(name: string, text: string, s: string)
    requires IsName(name) && Safe(text) && Unescape(text) == Some(s)
    ensures Received(name, text) == Some(s)
  {
    SafeIsWhole(text);
    ReceivedDecoded(name, text);
  }

  lemma ReceivedEscaped(name: string, s: string, text: string)
    requires IsName(name) && OneByte(s) && text == Escape(s)
    ensures Received(name, text) == Some(s)
  {
    EscapeIsSafe(s);
    UnescapeEscape(s);
    ReceivedSafe(name, text, s);
  }

  /** Decoding inverts escaping: any key of one-byte characters arrives as it was meant if it is escaped first. */
  lemma EscapedKeyArrives(s: string)
    requires OneByte(s)
    ensures Arrives(Escape(s)) == Some(s)
  {
    ReceivedEscaped("key", s, Escape(s));
  }
}

/** Reading a cookie back out of a request header (visuara-signaling/src/session.rs). */
module Cookies {
  import opened Text

  const SESSION_COOKIE := "visuara_session"

  type Pair = (string, string)

  /** The first `;`-separated part that splits at `=` into `name` and a value. */
  function FindPair(parts: seq<string>, name: string): Option<string> {
    if parts == [] then None
    else
      match SplitOnce(Trim(parts[0]), '=')
      case Some((key, value)) => if key == name then Some(value) else FindPair(parts[1..], name)
      case None => FindPair(parts[1..], name)
  }

  /** `cookie_value`; the header is absent or its text is given. */
  function CookieValue(header: Option<string>, name: string): Option<string> {
    match header
    case None => None
    case Some(text) => FindPair(Split(text, ';'), name)
  }

  // ----- The cookie-string a user agent sends (section 4.2.1 of RFC 6265) -----

  /** cookie-octet: US-ASCII without controls, whitespace, double quote, comma, semicolon and backslash. */
  predicate CookieOctet(c: char) {
    0x21 <= c as int <= 0x7E && c != '"' && c != ',' && c != ';' && c != '\\'
  }

  /** token character: a cookie-octet that is also none of the separators of RFC 2616. */
  predicate TokenChar(c: char) {
    CookieOctet(c) && c !in "()<>@:/[]?={}"
  }

  predicate LegalPair(p: Pair) {
    && p.0 != "" && (forall i :: 0 <= i < |p.0| ==> TokenChar(p.0[i]))
    && (forall i :: 0 <= i < |p.1| ==> CookieOctet(p.1[i]))
  }

  function Render(p: Pair): string { p.0 + "=" + p.1 }

  /** cookie-pair *( ";" SP cookie-pair ) */
  function Join(pairs: seq<Pair>): string {
    if pairs == [] then ""
    else if |pairs| == 1 then Render(pairs[0])
    else Render(pairs[0]) + "; " + Join(pairs[1..])
  }

  /** The meaning of a lookup on the pairs themselves. */
  function FirstValue(pairs: seq<Pair>, name: string): Option<string> {
    if pairs == [] then None
    else if pairs[0].0 == name then Some(pairs[0].1)
    else FirstValue(pairs[1..], name)
  }

  lemma RenderedPair(p: Pair)
    requires LegalPair(p)
    ensures ';' !in Render(p)
    ensures Trim(Render(p)) == Render(p) && Trim(" " + Render(p)) == Render(p)
    ensures SplitOnce(Render(p), '=') == Some(p)
  {
    var r := Render(p);
    assert forall i :: 0 <= i < |r| ==> CookieOctet(r[i]) by {
      forall i | 0 <= i < |r| ensures CookieOctet(r[i]) {
        if i < |p.0| { assert TokenChar(p.0[i]); }
      }
    }
    assert CookieOctet(r[0]) && CookieOctet(r[|r| - 1]);
    assert (" " + r)[1..] == r;
    SplitOnceAt(p.0, '=', p.1);
  }

  /** A part that trims to a rendered pair is read as that pair. */
  lemma PartRead(x: string, p: Pair, rest: seq<string>, name: string)
    requires LegalPair(p) && Trim(x) == Render(p)
    ensures FindPair([x] + rest, name) == if p.0 == name then Some(p.1) else FindPair(rest, name)
  {
    RenderedPair(p);
    assert ([x] + rest)[1..] == rest;
  }

  /** Every lookup in what follows a separator, its leading space included. */
  lemma {:induction false} LookupAfterSeparator(pairs: seq<Pair>, name: string)
    requires pairs != []
    requires forall i :: 0 <= i < |pairs| ==> LegalPair(pairs[i])
    ensures FindPair(Split(" " + Join(pairs), ';'), name) == FirstValue(pairs, name)
    decreases |pairs|, 1
  {
    var p := pairs[0];
    RenderedPair(p);
    Lookup(" " + Render(p), pairs, name);
    assert |pairs| > 1 ==> " " + Join(pairs) == " " + Render(p) + "; " + Join(pairs[1..]);
  }

  lemma {:induction false} Lookup(x: string, pairs: seq<Pair>, name: string)
    requires pairs != []
    requires forall i :: 0 <= i < |pairs| ==> LegalPair(pairs[i])
    requires ';' !in x && Trim(x) == Render(pairs[0])
    ensures FindPair(Split(if |pairs| == 1 then x else x + "; " + Join(pairs[1..]), ';'), name) == FirstValue(pairs, name)
    decreases |pairs|, 0
  {
    var rest := pairs[1..];
    if |pairs| == 1 {
      SplitWhole(x, ';');
      PartRead(x, pairs[0], [], name);
      assert [x] + [] == [x];
    } else {
      LookupAfterSeparator(rest, name);
      SplitPrefix(x, ';', " " + Join(rest));
      PartRead(x, pairs[0], Split(" " + Join(rest), ';'), name);
      assert x + "; " + Join(rest) == x + ";" + (" " + Join(rest));
    }
  }

  /** A header built from legal pairs yields the value of the first pair of that name, and nothing when none has it; so does no header. */
  lemma CookieRoundTrip(pairs: seq<Pair>, name: string)
    requires forall i :: 0 <= i < |pairs| ==> LegalPair(pairs[i])
    ensures CookieValue(Some(Join(pairs)), name) == FirstValue(pairs, name)
    ensures CookieValue(None, name) == None
  {
    if pairs == [] {
      assert Split("", ';') == [""] && SplitOnce(Trim(""), '=') == None && FindPair([""][1..], name) == None;
    } else {
      RenderedPair(pairs[0]);
      Lookup(Render(pairs[0]), pairs, name);
    }
  }
}

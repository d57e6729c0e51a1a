/**
 The WebSocket handshake's Cookie header parser, and the header syntax of section 4.2.1 of RFC 6265 it must
 read back.
 */
module CookieHeader {
  import opened Text

  datatype Cookie = Cookie(name: string, value: string)

  /** `str.split` on one character. */
  function Split(s: string, at: char): (parts: seq<string>)
    ensures parts != []
  {
    if s == [] then [""]
    else if s[0] == at then [""] + Split(s[1..], at)
    else
      var rest := Split(s[1..], at);
      [[s[0]] + rest[0]] + rest[1..]
  }

  /** Where the first '=' is; the length when there is none. */
  function FirstEquals(s: string): (n: nat)
    ensures n <= |s| && (n < |s| <==> '=' in s)
    ensures n < |s| ==> s[n] == '='
    ensures '=' !in s[..n]
  {
    if s == [] || s[0] == '=' then 0 else
      assert s[..1 + FirstEquals(s[1..])] == [s[0]] + s[1..][..FirstEquals(s[1..])];
      1 + FirstEquals(s[1..])
  }

  /** The cookies after one ';'-separated part; a part without '=' is ignored, a repeated name takes the later value. */
  function Take(cookies: map<string, string>, part: string): map<string, string> {
    var clean := Strip(part);
    var n := FirstEquals(clean);
    if n < |clean| then cookies[Strip(clean[..n]) := Strip(clean[n + 1..])] else cookies
  }

  function TakeAll(cookies: map<string, string>, parts: seq<string>): map<string, string>
    decreases |parts|
  {
    if parts == [] then cookies else TakeAll(Take(cookies, parts[0]), parts[1..])
  }

  method ParseCookies(header: string) returns (cookies: map<string, string>)
    ensures cookies == TakeAll(map[], Split(header, ';'))
  {
    cookies := map[];
    var parts := Split(header, ';');
    for i := 0 to |parts|
      invariant TakeAll(cookies, parts[i..]) == TakeAll(map[], parts)
    {
      assert parts[i..][0] == parts[i] && parts[i..][1..] == parts[i + 1..];
      var clean := Strip(parts[i]);
      var n := FirstEquals(clean);
      if n < |clean| {
        cookies := cookies[Strip(clean[..n]) := Strip(clean[n + 1..])];
      }
    }
  }

  // ------------------------------------------------------- round trip

  /** What the RFC's tokens and cookie-octets guarantee and the parser needs; values may hold '='. */
  predicate WellFormed(c: Cookie) {
    Trimmed(c.name) && '=' !in c.name && ';' !in c.name && Trimmed(c.value) && ';' !in c.value
  }

  function Pair(c: Cookie): string {
    c.name + "=" + c.value
  }

  /** cookie-string = cookie-pair *( ";" SP cookie-pair ) */
  function Print(cookies: seq<Cookie>): string
    decreases |cookies|
  {
    if cookies == [] then ""
    else if |cookies| == 1 then Pair(cookies[0])
    else Pair(cookies[0]) + "; " + Print(cookies[1..])
  }

  function MapOf(base: map<string, string>, cookies: seq<Cookie>): map<string, string>
    decreases |cookies|
  {
    if cookies == [] then base else MapOf(base[cookies[0].name := cookies[0].value], cookies[1..])
  }

  lemma {:induction false} SplitFirst(part: string, rest: string, at: char)
    requires at !in part
    ensures Split(part, at) == [part]
    ensures Split(part + [at] + rest, at) == [part] + Split(rest, at)
    decreases |part|
  {
    var s := part + [at] + rest;
    if part == [] {
      assert s[1..] == rest;
    } else {
      assert s[0] == part[0] && s[1..] == part[1..] + [at] + rest;
      SplitFirst(part[1..], rest, at);
      assert [part[0]] + part[1..] == part;
      assert ([part[1..]] + Split(rest, at))[1..] == Split(rest, at) && [part[1..]][1..] == [];
    }
  }

  lemma {:induction false} FirstEqualsOfPair(name: string, value: string)
    requires '=' !in name
    ensures FirstEquals(name + "=" + value) == |name|
    decreases |name|
  {
    var s := name + "=" + value;
    if name != [] {
      assert s[0] == name[0] && s[1..] == name[1..] + "=" + value;
      FirstEqualsOfPair(name[1..], value);
    }
  }

  lemma PairIsTrimmed(c: Cookie)
    requires Trimmed(c.name) && Trimmed(c.value)
    ensures Trimmed(Pair(c))
  {
  }

  lemma StripPadded(pad: string, s: string)
    requires Trimmed(s) && forall i :: 0 <= i < |pad| ==> IsSpace(pad[i])
    ensures Strip(pad + s) == s
  {
    StripIsTrimmed(s);
    StripLeftSkips(pad, s);
  }

  lemma PairSplits(c: Cookie)
    requires '=' !in c.name
    ensures FirstEquals(Pair(c)) == |c.name| < |Pair(c)|
    ensures Pair(c)[..|c.name|] == c.name && Pair(c)[|c.name| + 1..] == c.value
  {
    FirstEqualsOfPair(c.name, c.value);
  }

  /** One printed pair, with or without the space after the separator, is taken as that cookie. */
  lemma TakesPair(cookies: map<string, string>, c: Cookie, pad: string)
    requires WellFormed(c) && forall i :: 0 <= i < |pad| ==> IsSpace(pad[i])
    ensures Take(cookies, pad + Pair(c)) == cookies[c.name := c.value]
  {
    PairIsTrimmed(c);
    StripPadded(pad, Pair(c));
    PairSplits(c);
    StripIsTrimmed(c.name);
    StripIsTrimmed(c.value);
  }

  /** A part without '=' adds nothing; among the others a later value of a name replaces an earlier one. */
  lemma TakesNothing(cookies: map<string, string>, part: string)
    requires '=' !in part
    ensures Take(cookies, part) == cookies
  {
    StripKeepsOut(part, '=');
  }

  lemma {:induction false} StripKeepsOut(s: string, ch: char)
    requires ch !in s
    ensures ch !in StripLeft(s) && ch !in StripRight(s) && ch !in Strip(s)
  {
    StripLeftKeepsOut(s, ch);
    StripRightKeepsOut(s, ch);
    StripRightKeepsOut(StripLeft(s), ch);
  }

  lemma {:induction false} StripLeftKeepsOut(s: string, ch: char)
    requires ch !in s
    ensures ch !in StripLeft(s)
    decreases |s|
  {
    if s != [] {
      StripLeftKeepsOut(s[1..], ch);
    }
  }

  lemma {:induction false} StripRightKeepsOut(s: string, ch: char)
    requires ch !in s
    ensures ch !in StripRight(s)
    decreases |s|
  {
    if s != [] {
      StripRightKeepsOut(s[..|s| - 1], ch);
    }
  }

  lemma PairHasNoSeparator(c: Cookie, pad: string)
    requires WellFormed(c) && ';' !in pad
    ensures ';' !in pad + Pair(c)
  {
  }

  ghost predicate AllWellFormed(cookies: seq<Cookie>) {
    forall i :: 0 <= i < |cookies| ==> WellFormed(cookies[i])
  }

  predicate IsPad(pad: string) {
    ';' !in pad && forall i :: 0 <= i < |pad| ==> IsSpace(pad[i])
  }

  lemma TakesFirst(base: map<string, string>, c: Cookie, pad: string, rest: string)
    requires WellFormed(c) && IsPad(pad)
    ensures TakeAll(base, Split(pad + Pair(c), ';')) == base[c.name := c.value]
    ensures TakeAll(base, Split(pad + Pair(c) + [';'] + rest, ';'))
      == TakeAll(base[c.name := c.value], Split(rest, ';'))
  {
    var part := pad + Pair(c);
    PairHasNoSeparator(c, pad);
    TakesPair(base, c, pad);
    SplitFirst(part, rest, ';');
    FirstTaken(base, part, []);
    FirstTaken(base, part, Split(rest, ';'));
  }

  lemma MapOfMore(base: map<string, string>, c: Cookie, more: seq<Cookie>)
    ensures MapOf(base, [c] + more) == MapOf(base[c.name := c.value], more)
  {
  }

  lemma PrintMore(c: Cookie, more: seq<Cookie>, pad: string)
    requires more != []
    ensures pad + Print([c] + more) == pad + Pair(c) + [';'] + (" " + Print(more))
  {
  }

  lemma FirstIsWellFormed(cookies: seq<Cookie>)
    requires AllWellFormed(cookies) && cookies != []
    ensures WellFormed(cookies[0]) && AllWellFormed(cookies[1..]) && cookies == [cookies[0]] + cookies[1..]
  {
  }

  lemma {:induction false} TakesPrinted(base: map<string, string>, c: Cookie, more: seq<Cookie>, pad: string)
    requires WellFormed(c) && AllWellFormed(more) && IsPad(pad)
    ensures TakeAll(base, Split(pad + Print([c] + more), ';')) == MapOf(base, [c] + more)
    decreases |more|
  {
    var next := base[c.name := c.value];
    MapOfMore(base, c, more);
    TakesFirst(base, c, pad, " " + Print(more));
    if more == [] {
      assert [c] + more == [c];
    } else {
      PrintMore(c, more, pad);
      FirstIsWellFormed(more);
      TakesPrinted(next, more[0], more[1..], " ");
    }
  }

  lemma ParsedIsMap(cookies: seq<Cookie>)
    requires AllWellFormed(cookies)
    ensures TakeAll(map[], Split(Print(cookies), ';')) == MapOf(map[], cookies)
  {
    if cookies == [] {
      assert Strip("") == "";
      FirstTaken(map[], "", []);
    } else {
      FirstIsWellFormed(cookies);
      TakesPrinted(map[], cookies[0], cookies[1..], "");
      assert "" + Print(cookies) == Print(cookies);
    }
  }

  lemma FirstTaken(base: map<string, string>, part: string, rest: seq<string>)
    ensures TakeAll(base, [part] + rest) == TakeAll(Take(base, part), rest)
    ensures [part] + [] == [part]
  {
  }

  lemma {:induction false} MapOfDistinct(base: map<string, string>, cookies: seq<Cookie>)
    requires forall i, j :: 0 <= i < j < |cookies| ==> cookies[i].name != cookies[j].name
    ensures forall i :: 0 <= i < |cookies| ==>
      cookies[i].name in MapOf(base, cookies) && MapOf(base, cookies)[cookies[i].name] == cookies[i].value
    ensures forall k :: (forall i :: 0 <= i < |cookies| ==> cookies[i].name != k) ==>
      (k in MapOf(base, cookies) <==> k in base) && (k in base ==> MapOf(base, cookies)[k] == base[k])
    decreases |cookies|
  {
    if cookies != [] {
      var next, rest := base[cookies[0].name := cookies[0].value], cookies[1..];
      MapOfDistinct(next, rest);
      assert forall i :: 0 <= i < |rest| ==> rest[i] == cookies[i + 1];
      assert MapOf(base, cookies) == MapOf(next, rest);
      forall i | 0 <= i < |cookies|
        ensures cookies[i].name in MapOf(next, rest) && MapOf(next, rest)[cookies[i].name] == cookies[i].value
      {
        if i > 0 {
          assert rest[i - 1] == cookies[i];
        }
      }
    }
  }

  /** Parsing a printed header gives back exactly the cookies, values holding '=' included. */
  lemma ParseOfPrint(cookies: seq<Cookie>)
    requires AllWellFormed(cookies)
    requires forall i, j :: 0 <= i < j < |cookies| ==> cookies[i].name != cookies[j].name
    ensures var parsed := TakeAll(map[], Split(Print(cookies), ';'));
      && (forall i :: 0 <= i < |cookies| ==> cookies[i].name in parsed && parsed[cookies[i].name] == cookies[i].value)
      && (forall k :: k in parsed ==> exists i :: 0 <= i < |cookies| && cookies[i].name == k)
  {
    MapOfDistinct(map[], cookies);
    ParsedIsMap(cookies);
  }
}

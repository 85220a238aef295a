/**
 Cookies of a connection: parsing a cookie string (litestar/_parsers.py) and
 reassembling several cookie headers (litestar/connection/base.py).
 */
module Cookies {
  import opened Outcomes
  import opened Strings

  /** The white space that `str.strip` takes off, among the characters a header is made of. */
  predicate IsSpace(c: char) {
    '\t' <= c <= '\r' || '\U{1c}' <= c <= ' ' || c == '\U{85}' || c == '\U{a0}'
  }

  function Strip(s: string): string
    decreases |s|
  {
    if s == "" then ""
    else if IsSpace(s[0]) then Strip(s[1..])
    else if IsSpace(s[|s| - 1]) then Strip(s[..|s| - 1])
    else s
  }

  type Jar = map<string, string>

  // ----- parsing one string -----

  /** The name and the value of one piece; without an equals sign it is all value. */
  function KeyAndValue(cookie: string): (string, string) {
    var i := Find(cookie, '=');
    if i == |cookie| then ("", Strip(cookie)) else (Strip(cookie[..i]), Strip(cookie[i + 1..]))
  }

  function AddPiece(jar: Jar, cookie: string, unquote: string -> string): Jar {
    var (key, value) := KeyAndValue(cookie);
    if (key != "" || value != "") && key !in jar then jar[key := unquote(value)] else jar
  }

  function AddPieces(jar: Jar, pieces: seq<string>, unquote: string -> string): Jar
    decreases pieces
  {
    if pieces == [] then jar else AddPieces(AddPiece(jar, pieces[0], unquote), pieces[1..], unquote)
  }

  function ParsedCookies(s: string, unquote: string -> string): Jar {
    AddPieces(map[], Split(s, ';'), unquote)
  }

  method ParseCookieString(cookieString: string, unquote: string -> string) returns (output: Jar)
    ensures output == ParsedCookies(cookieString, unquote)
  {
    output := map[];
    var pieces := Split(cookieString, ';');
    for i := 0 to |pieces|
      invariant AddPieces(output, pieces[i..], unquote) == AddPieces(map[], pieces, unquote)
    {
      var cookie := pieces[i];
      assert pieces[i..][0] == cookie && pieces[i..][1..] == pieces[i + 1..];
      ghost var before := output;
      var separator := Find(cookie, '=');
      var key, value := "", cookie;
      if separator < |cookie| {
        key, value := cookie[..separator], cookie[separator + 1..];
      }
      key, value := Strip(key), Strip(value);
      if (key != "" || value != "") && key !in output {
        output := output[key := unquote(value)];
      }
      assert Strip("") == "";
      assert output == AddPiece(before, cookie, unquote);
    }
  }

  // ----- what a piece says -----

  lemma {:induction false} NoneFound(s: string, c: char)
    requires c !in s
    ensures Find(s, c) == |s|
  {
    if s != "" {
      assert s[0] in s && c !in s[1..];
      NoneFound(s[1..], c);
    }
  }

  /** What comes ahead of the first equals sign is the name, and the rest the value. */
  lemma {:induction false} PieceIsNameAndValue(name: string, value: string)
    requires '=' !in name
    ensures KeyAndValue(name + ("=" + value)) == (Strip(name), Strip(value))
  {
    var s, tail := name + ("=" + value), "=" + value;
    NoneFound(name, '=');
    FindInBoth(name, tail, '=');
    assert s[..|name|] == name && s[|name| + 1..] == value;
  }

  lemma {:induction false} PieceIsValue(value: string)
    requires '=' !in value
    ensures KeyAndValue(value) == ("", Strip(value))
  {
    NoneFound(value, '=');
  }

  /** A piece adds its value under its name, unless the name is there already or nothing is said. */
  lemma {:induction false} PieceAdds(jar: Jar, name: string, value: string, unquote: string -> string)
    requires '=' !in name
    ensures AddPiece(jar, name + ("=" + value), unquote) ==
            if Strip(name) in jar || (Strip(name) == "" && Strip(value) == "") then jar
            else jar[Strip(name) := unquote(Strip(value))]
    ensures AddPiece(jar, name, unquote) ==
            if "" in jar || Strip(name) == "" then jar else jar["" := unquote(Strip(name))]
  {
    PieceIsNameAndValue(name, value);
    PieceIsValue(name);
  }

  /** Tabs, line ends and blanks are white space, and no visible ASCII character is. */
  lemma {:induction false} SpaceCharacters(c: char)
    ensures c in {' ', '\t', '\n', '\U{b}', '\U{c}', '\r', '\U{1c}', '\U{1f}', '\U{85}', '\U{a0}'} ==> IsSpace(c)
    ensures '!' <= c <= '~' ==> !IsSpace(c)
    ensures c in {'\U{0}', '\U{8}', '\U{e}', '\U{1b}', '\U{7f}', '\U{84}', '\U{86}', '\U{9f}', '\U{a1}'} ==> !IsSpace(c)
  {
  }

  lemma {:induction false} PutAtEnd(s: string, rest: string, last: string, a: string, b: string, c: string)
    requires s == rest + last && rest == a + b + c
    ensures s == a + b + (c + last)
  {
  }

  /** White space is taken off both ends, and all of it. */
  lemma {:induction false} StripTakesSpace(s: string) returns (before: string, after: string)
    ensures s == before + Strip(s) + after && forall c | c in before + after :: IsSpace(c)
    ensures Strip(s) != "" ==> !IsSpace(Strip(s)[0]) && !IsSpace(Strip(s)[|Strip(s)| - 1])
    decreases |s|
  {
    if s == "" {
      before, after := "", "";
    } else if IsSpace(s[0]) {
      before, after := StripTakesSpace(s[1..]);
      assert s == [s[0]] + s[1..];
      assert s == ([s[0]] + before) + Strip(s) + after;
      before := [s[0]] + before;
    } else if IsSpace(s[|s| - 1]) {
      var rest, last := s[..|s| - 1], [s[|s| - 1]];
      assert s == rest + last;
      before, after := StripTakesSpace(rest);
      PutAtEnd(s, rest, last, before, Strip(s), after);
      after := after + last;
    } else {
      before, after := "", "";
      assert s == "" + s + "";
    }
  }

  // ----- the first value of a name wins -----

  predicate Names(piece: string, name: string) {
    var (key, value) := KeyAndValue(piece);
    key == name && (key != "" || value != "")
  }

  /** The value in the first piece that has the name. */
  function FirstValue(pieces: seq<string>, name: string): Option<string> {
    if pieces == [] then None
    else if Names(pieces[0], name) then Some(KeyAndValue(pieces[0]).1)
    else FirstValue(pieces[1..], name)
  }

  function Lookup(jar: Jar, name: string): Option<string> {
    if name in jar then Some(jar[name]) else None
  }

  lemma {:induction false} PiecesMeaning(jar: Jar, pieces: seq<string>, unquote: string -> string, name: string)
    ensures Lookup(AddPieces(jar, pieces, unquote), name)
         == if name in jar then Some(jar[name])
            else if FirstValue(pieces, name).Some? then Some(unquote(FirstValue(pieces, name).value))
            else None
    decreases pieces
  {
    if pieces != [] {
      PiecesMeaning(AddPiece(jar, pieces[0], unquote), pieces[1..], unquote, name);
    }
  }

  /** Keep what is there. */
  function Merged(jar: Jar, more: Jar): Jar {
    more + jar
  }

  lemma {:induction false} PiecesAreMerged(jar: Jar, pieces: seq<string>, unquote: string -> string)
    ensures AddPieces(jar, pieces, unquote) == Merged(jar, AddPieces(map[], pieces, unquote))
  {
    var all, merged := AddPieces(jar, pieces, unquote), Merged(jar, AddPieces(map[], pieces, unquote));
    forall name
      ensures Lookup(all, name) == Lookup(merged, name)
    {
      PiecesMeaning(jar, pieces, unquote, name);
      PiecesMeaning(map[], pieces, unquote, name);
    }
    SameLookups(all, merged);
  }

  lemma {:induction false} SameLookups(a: Jar, b: Jar)
    requires forall name :: Lookup(a, name) == Lookup(b, name)
    ensures a == b
  {
    forall name
      ensures name in a <==> name in b
      ensures name in a ==> a[name] == b[name]
    {
      assert Lookup(a, name) == Lookup(b, name);
    }
  }

  // ----- several headers -----

  function CookiesOf(headers: seq<string>, unquote: string -> string): Jar {
    if headers == [] then map[] else ParsedCookies(Joined("; ", headers), unquote)
  }

  /** Every header for itself, earlier ones having precedence. */
  function MergedHeaders(headers: seq<string>, unquote: string -> string): Jar {
    if headers == [] then map[]
    else Merged(ParsedCookies(headers[0], unquote), MergedHeaders(headers[1..], unquote))
  }

  lemma {:induction false} PiecesOfBoth(jar: Jar, a: seq<string>, b: seq<string>, unquote: string -> string)
    ensures AddPieces(jar, a + b, unquote) == AddPieces(AddPieces(jar, a, unquote), b, unquote)
    decreases a
  {
    if a == [] {
      assert a + b == b;
    } else {
      assert (a + b)[1..] == a[1..] + b;
      PiecesOfBoth(AddPiece(jar, a[0], unquote), a[1..], b, unquote);
    }
  }

  /** The space after a semicolon is stripped, whatever it is put in front of. */
  lemma {:induction false} LeadingSpace(piece: string)
    ensures KeyAndValue(" " + piece) == KeyAndValue(piece)
  {
    var s := " " + piece;
    assert s[1..] == piece;
    assert Find(s, '=') == 1 + Find(piece, '=');
    var i := Find(piece, '=');
    if i < |piece| {
      assert s[..i + 1][1..] == piece[..i];
      assert s[i + 2..] == piece[i + 1..];
      assert s[..i + 1][0] == ' ';
    } else {
      assert s[0] == ' ';
    }
  }

  lemma {:induction false} SplitAfterSpace(s: string, jar: Jar, unquote: string -> string)
    ensures AddPieces(jar, Split(" " + s, ';'), unquote) == AddPieces(jar, Split(s, ';'), unquote)
  {
    var spaced, i := " " + s, Find(s, ';');
    SpacedSlices(s, i);
    LeadingSpace(s[..i]);
    if i < |s| {
      assert Split(spaced, ';') == [" " + s[..i]] + Split(s[i + 1..], ';');
      AddsFirst(jar, " " + s[..i], Split(s[i + 1..], ';'), unquote);
      AddsFirst(jar, s[..i], Split(s[i + 1..], ';'), unquote);
    } else {
      AddsFirst(jar, spaced, [], unquote);
      AddsFirst(jar, s, [], unquote);
      assert [spaced] + [] == [spaced] && [s] + [] == [s];
    }
  }

  lemma {:induction false} SpacedSlices(s: string, i: nat)
    requires i == Find(s, ';')
    ensures Find(" " + s, ';') == 1 + i
    ensures (" " + s)[..1 + i] == " " + s[..i]
    ensures if i < |s| then (" " + s)[1 + i + 1..] == s[i + 1..] else s[..i] == s
  {
    FindInBoth(" ", s, ';');
    SlicesAfter(" ", s, i);
    if i < |s| {
      SlicesAfter(" ", s, i + 1);
    }
  }

  lemma {:induction false} SlicesAfter(a: string, b: string, k: nat)
    requires k <= |b|
    ensures (a + b)[|a| + k..] == b[k..]
    ensures (a + b)[..|a| + k] == a + b[..k]
  {
  }

  lemma {:induction false} AddsFirst(jar: Jar, piece: string, rest: seq<string>, unquote: string -> string)
    ensures AddPieces(jar, [piece] + rest, unquote) == AddPieces(AddPiece(jar, piece, unquote), rest, unquote)
  {
    assert ([piece] + rest)[1..] == rest;
  }

  lemma {:induction false} ParsedOfBoth(first: string, rest: string, unquote: string -> string)
    ensures ParsedCookies(first + ("; " + rest), unquote)
         == Merged(ParsedCookies(first, unquote), ParsedCookies(rest, unquote))
  {
    var tail := "; " + rest;
    assert tail[1..] == " " + rest;
    SplitOfBoth(first, tail, ';');
    PiecesOfBoth(map[], Split(first, ';'), Split(" " + rest, ';'), unquote);
    SplitAfterSpace(rest, ParsedCookies(first, unquote), unquote);
    PiecesAreMerged(ParsedCookies(first, unquote), Split(rest, ';'), unquote);
  }

  /** Reassembling the headers is giving the earlier ones precedence. */
  lemma {:induction false} HeadersAreMerged(headers: seq<string>, unquote: string -> string)
    ensures CookiesOf(headers, unquote) == MergedHeaders(headers, unquote)
  {
    if headers == [] {
    } else if |headers| == 1 {
      assert MergedHeaders(headers[1..], unquote) == map[];
    } else {
      HeadersAreMerged(headers[1..], unquote);
      ParsedOfBoth(headers[0], Joined("; ", headers[1..]), unquote);
    }
  }

  /** All pieces of all headers, in order. */
  function AllPieces(headers: seq<string>): seq<string> {
    if headers == [] then [] else Split(headers[0], ';') + AllPieces(headers[1..])
  }

  lemma {:induction false} FirstValueOfBoth(a: seq<string>, b: seq<string>, name: string)
    ensures FirstValue(a + b, name) == if FirstValue(a, name).Some? then FirstValue(a, name) else FirstValue(b, name)
  {
    if a == [] {
      assert a + b == b;
    } else {
      assert (a + b)[1..] == a[1..] + b;
      FirstValueOfBoth(a[1..], b, name);
    }
  }

  lemma {:induction false} MergedMeaning(headers: seq<string>, unquote: string -> string, name: string)
    ensures Lookup(MergedHeaders(headers, unquote), name)
         == if FirstValue(AllPieces(headers), name).Some? then
              Some(unquote(FirstValue(AllPieces(headers), name).value))
            else None
  {
    if headers != [] {
      var first := Split(headers[0], ';');
      MergedMeaning(headers[1..], unquote, name);
      FirstValueOfBoth(first, AllPieces(headers[1..]), name);
      PiecesMeaning(map[], first, unquote, name);
    }
  }

  /**
   The first value that was sent under a name wins, and how the cookies were
   spread over headers makes no difference.
   */
  lemma {:induction false} SplittingIsIrrelevant(some: seq<string>, other: seq<string>, unquote: string -> string)
    requires AllPieces(some) == AllPieces(other)
    ensures CookiesOf(some, unquote) == CookiesOf(other, unquote)
    ensures forall name :: Lookup(CookiesOf(some, unquote), name)
                        == if FirstValue(AllPieces(some), name).Some? then
                             Some(unquote(FirstValue(AllPieces(some), name).value))
                           else None
  {
    HeadersAreMerged(some, unquote);
    HeadersAreMerged(other, unquote);
    forall name
      ensures Lookup(CookiesOf(some, unquote), name)
           == (if FirstValue(AllPieces(some), name).Some? then
                 Some(unquote(FirstValue(AllPieces(some), name).value))
               else None)
      ensures Lookup(CookiesOf(some, unquote), name) == Lookup(CookiesOf(other, unquote), name)
    {
      MergedMeaning(some, unquote, name);
      MergedMeaning(other, unquote, name);
    }
    SameLookups(CookiesOf(some, unquote), CookiesOf(other, unquote));
  }

  // ----- the connection -----

  /** What all connection objects of one scope share. */
  class ConnectionState {
    var cookies: Option<Jar>

    constructor ()
      ensures cookies == None
    {
      cookies := None;
    }
  }

  class ASGIConnection {
    const headers: seq<string>
    const unquote: string -> string
    const state: ConnectionState
    var cookies: Option<Jar>

    constructor (headers: seq<string>, unquote: string -> string, state: ConnectionState)
      ensures this.headers == headers && this.unquote == unquote && this.state == state && cookies == None
    {
      this.headers, this.unquote, this.state, cookies := headers, unquote, state, None;
    }

    /** Whatever is cached was computed from the headers of the scope. */
    ghost predicate Valid()
      reads this, state
    {
      && (cookies.Some? ==> cookies.value == MergedHeaders(headers, unquote))
      && (state.cookies.Some? ==> state.cookies.value == MergedHeaders(headers, unquote))
    }

    method GetCookies() returns (jar: Jar)
      requires Valid()
      modifies this`cookies, state
      ensures Valid() && jar == MergedHeaders(headers, unquote)
      ensures cookies == Some(jar)
      ensures old(cookies).None? ==> state.cookies == Some(jar)
    {
      HeadersAreMerged(headers, unquote);
      if cookies.None? {
        if state.cookies.Some? {
          cookies := state.cookies;
        } else {
          if headers != [] {
            jar := ParseCookieString(Joined("; ", headers), unquote);
          } else {
            jar := map[];
          }
          cookies := Some(jar);
          state.cookies := Some(jar);
        }
      }
      jar := cookies.value;
    }
  }
}

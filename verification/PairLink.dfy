/**
 * The pairing link in the QR code (internal/protocol/pair.go), printed with url.Values and read back.
 *
 * url.Parse is a parameter, known only to split a hermes://pair link whose query is made of escaped text.
 * Query strings, base64url, percent-encoding and integers are the functions of Text.
 */
module PairLink {
  import opened Bytes
  import opened Text

  const VERSION: int := 1
  const KEY_SIZE: nat := 32
  const CODE_SIZE: nat := 16
  const PREFIX := Ascii("hermes://pair?")
  const DIRECT := Ascii("direct")
  const RELAY := Ascii("relay")

  /** `expires` counts seconds since 1970; the wire has no finer time. */
  datatype Payload = Payload(version: int, transport: seq<byte>, url: seq<byte>, sessionID: seq<byte>,
                             bridgeKey: seq<byte>, code: seq<byte>, expires: int, name: seq<byte>)

  datatype Url = Url(scheme: seq<byte>, host: seq<byte>, query: seq<byte>)

  datatype Library = Library(parseURL: seq<byte> -> Option<Url>, sessionID: seq<byte> -> seq<byte>)

  predicate QueryByte(b: byte) {
    EscapedChar(b) || b == Byte('=') || b == Byte('&')
  }

  ghost predicate Splits(lib: Library) {
    forall query: seq<byte> :: (forall i :: 0 <= i < |query| ==> QueryByte(query[i])) ==>
      lib.parseURL(PREFIX + query) == Some(Url(Ascii("hermes"), Ascii("pair"), query))
  }

  /** Such a library exists: one that knows no other links. */
  lemma SomeLibrarySplits() returns (lib: Library)
    ensures Splits(lib)
  {
    var parse := (s: seq<byte>) =>
      if PREFIX <= s then Some(Url(Ascii("hermes"), Ascii("pair"), s[|PREFIX|..])) else None;
    lib := Library(parse, _ => []);
    forall query: seq<byte>
      ensures lib.parseURL(PREFIX + query) == Some(Url(Ascii("hermes"), Ascii("pair"), query))
    {
      assert (PREFIX + query)[|PREFIX|..] == query;
    }
  }

  // ---------------------------------------------------------------- query strings

  datatype Field = Field(key: seq<byte>, value: seq<byte>)

  function Segment(f: Field): seq<byte> {
    Escape(f.key) + [Byte('=')] + Escape(f.value)
  }

  /** Values.Encode, given the pairs in the order of their keys. */
  function EncodeFields(fields: seq<Field>): seq<byte> {
    if fields == [] then []
    else if |fields| == 1 then Segment(fields[0])
    else Segment(fields[0]) + [Byte('&')] + EncodeFields(fields[1..])
  }

  /** Where strings.Cut cuts: the first `sep`, or the end. */
  function CutPoint(s: seq<byte>, sep: byte): (i: nat)
    ensures i <= |s| && sep !in s[..i] && (i < |s| ==> s[i] == sep)
  {
    if s == [] || s[0] == sep then 0
    else
      var i := CutPoint(s[1..], sep);
      assert s[..i + 1] == [s[0]] + s[1..][..i];
      i + 1
  }

  function Before(s: seq<byte>, sep: byte): seq<byte> {
    s[..CutPoint(s, sep)]
  }

  function After(s: seq<byte>, sep: byte): (r: seq<byte>)
    ensures s != [] ==> |r| < |s|
  {
    if CutPoint(s, sep) == |s| then [] else s[CutPoint(s, sep) + 1..]
  }

  /** What one segment of a query adds to the values: nothing when it is empty or malformed. */
  function ReadSegment(segment: seq<byte>): Option<Field> {
    if Byte(';') in segment || segment == [] then None
    else
      match (Unescape(Before(segment, Byte('='))), Unescape(After(segment, Byte('='))))
      case (Some(key), Some(value)) => Some(Field(key, value))
      case _ => None
  }

  /** Query().Get: the first value of the key, or the empty string. */
  function Get(query: seq<byte>, key: seq<byte>): seq<byte>
    decreases |query|
  {
    if query == [] then []
    else
      match ReadSegment(Before(query, Byte('&')))
      case Some(f) => if f.key == key then f.value else Get(After(query, Byte('&')), key)
      case None => Get(After(query, Byte('&')), key)
  }

  function FirstValue(fields: seq<Field>, key: seq<byte>): seq<byte> {
    if fields == [] then []
    else if fields[0].key == key then fields[0].value
    else FirstValue(fields[1..], key)
  }

  // ---------------------------------------------------------------- the link

  function Key(c: char): seq<byte>
    requires c < 128 as char
  {
    [Byte(c)]
  }

  /** Values.Set for each part; String sets no name when it is empty. */
  function FieldsOf(p: Payload): seq<Field> {
    var first := [Field(Key('c'), Encode64(p.code)), Field(Key('e'), FormatInt(p.expires)),
                  Field(Key('k'), Encode64(p.bridgeKey))];
    var last := [Field(Key('s'), p.sessionID), Field(Key('t'), p.transport), Field(Key('u'), p.url),
                 Field(Key('v'), FormatInt(p.version))];
    if p.name == [] then first + last else first + [Field(Key('n'), p.name)] + last
  }

  function Print(p: Payload): seq<byte> {
    PREFIX + EncodeFields(FieldsOf(p))
  }

  datatype Parsed =
    | Link(payload: Payload)
    | BadLink | NotPair | BadVersion | BadTransport | BadURL | BadKey | BadSession | BadCode | BadExpiry

  predicate WebSocketURL(lib: Library, url: seq<byte>) {
    match lib.parseURL(url)
    case None => false
    case Some(u) => (u.scheme == Ascii("wss") || u.scheme == Ascii("ws")) && u.host != []
  }

  function Parse(lib: Library, s: seq<byte>): Parsed {
    match lib.parseURL(s)
    case None => BadLink
    case Some(u) =>
      if u.scheme != Ascii("hermes") || u.host != Ascii("pair") then NotPair
      else ParseQuery(lib, u.query)
  }

  function ParseQuery(lib: Library, q: seq<byte>): Parsed {
    var transport, url := Get(q, Key('t')), Get(q, Key('u'));
    var key, code := Decode64(Get(q, Key('k'))), Decode64(Get(q, Key('c')));
    var expires := ParseInt(Get(q, Key('e')));
    if ParseInt(Get(q, Key('v'))) != Some(VERSION) then BadVersion
    else if transport != DIRECT && transport != RELAY then BadTransport
    else if !WebSocketURL(lib, url) then BadURL
    else if key.None? || |key.value| != KEY_SIZE then BadKey
    else if Get(q, Key('s')) != lib.sessionID(key.value) then BadSession
    else if code.None? || |code.value| != CODE_SIZE then BadCode
    else if expires.None? then BadExpiry
    else
      var sessionID, name := Get(q, Key('s')), Get(q, Key('n'));
      Link(Payload(VERSION, transport, url, sessionID, key.value, code.value, expires.value, name))
  }

  /** The payloads the bridge prints: any name, any expiry a time.Time can hold in whole seconds. */
  ghost predicate WellFormed(lib: Library, p: Payload) {
    && p.version == 1 && (p.transport == Ascii("direct") || p.transport == Ascii("relay"))
    && (exists u :: lib.parseURL(p.url) == Some(u)
                    && (u.scheme == Ascii("wss") || u.scheme == Ascii("ws")) && u.host != [])
    && |p.bridgeKey| == 32 && p.sessionID == lib.sessionID(p.bridgeKey) && |p.code| == 16
    && -9223372036854775808 <= p.expires <= 9223372036854775807
  }

  // ---------------------------------------------------------------- proofs

  lemma {:induction false} CutAt(a: seq<byte>, sep: byte, b: seq<byte>)
    requires sep !in a
    ensures CutPoint(a + [sep] + b, sep) == |a| && CutPoint(a, sep) == |a|
    ensures Before(a + [sep] + b, sep) == a && After(a + [sep] + b, sep) == b
    ensures Before(a, sep) == a && After(a, sep) == []
  {
    if a == [] {
    } else {
      assert (a + [sep] + b)[1..] == a[1..] + [sep] + b;
      CutAt(a[1..], sep, b);
    }
  }

  lemma SegmentIsPlain(f: Field)
    ensures Byte('&') !in Segment(f) && Byte(';') !in Segment(f) && Byte('=') !in Escape(f.key) && Segment(f) != []
    ensures forall i :: 0 <= i < |Segment(f)| ==> QueryByte(Segment(f)[i])
  {
    EscapedIsPlain(f.key);
    EscapedIsPlain(f.value);
  }

  lemma SegmentRoundTrip(f: Field)
    ensures ReadSegment(Segment(f)) == Some(f)
  {
    SegmentIsPlain(f);
    CutAt(Escape(f.key), Byte('='), Escape(f.value));
    EscapeRoundTrip(f.key);
    EscapeRoundTrip(f.value);
  }

  /** Looking up an encoded query finds what was put in. */
  lemma {:induction false} GetEncoded(fields: seq<Field>, key: seq<byte>)
    ensures Get(EncodeFields(fields), key) == FirstValue(fields, key)
  {
    if fields == [] {
    } else {
      var f := fields[0];
      SegmentIsPlain(f);
      SegmentRoundTrip(f);
      CutAt(Segment(f), Byte('&'), EncodeFields(fields[1..]));
      GetEncoded(fields[1..], key);
    }
  }

  lemma {:induction false} EncodedIsQuery(fields: seq<Field>)
    ensures forall i :: 0 <= i < |EncodeFields(fields)| ==> QueryByte(EncodeFields(fields)[i])
  {
    if fields != [] {
      SegmentIsPlain(fields[0]);
      EncodedIsQuery(fields[1..]);
    }
  }

  ghost predicate Distinct(fields: seq<Field>) {
    forall i, k :: 0 <= i < k < |fields| ==> fields[i].key != fields[k].key
  }

  lemma {:induction false} FirstOf(fields: seq<Field>, key: seq<byte>, value: seq<byte>)
    requires Distinct(fields) && Field(key, value) in fields
    ensures FirstValue(fields, key) == value
  {
    if fields[0] != Field(key, value) {
      assert Field(key, value) in fields[1..];
      FirstOf(fields[1..], key, value);
    }
  }

  lemma {:induction false} FirstMissing(fields: seq<Field>, key: seq<byte>)
    requires forall k :: 0 <= k < |fields| ==> fields[k].key != key
    ensures FirstValue(fields, key) == []
  {
    if fields != [] {
      FirstMissing(fields[1..], key);
    }
  }

  /** The pairs come in the order in which Encode writes them: sorted by key. */
  ghost predicate Sorted(fields: seq<Field>) {
    && (forall i :: 0 <= i < |fields| ==> |fields[i].key| == 1)
    && (forall i, k :: 0 <= i < k < |fields| ==> fields[i].key[0] < fields[k].key[0])
  }

  lemma FieldsSorted(p: Payload)
    ensures Sorted(FieldsOf(p))
  {
    hide Encode64, FormatInt;
    var keys := if p.name == [] then KEYS else NAMED_KEYS;
    assert |FieldsOf(p)| == |keys|;
    assert forall i :: 0 <= i < |keys| ==> FieldsOf(p)[i].key == [keys[i]];
    KeysAscend();
  }

  const KEYS: seq<byte> := [Byte('c'), Byte('e'), Byte('k'), Byte('s'), Byte('t'), Byte('u'), Byte('v')]
  const NAMED_KEYS: seq<byte> :=
    [Byte('c'), Byte('e'), Byte('k'), Byte('n'), Byte('s'), Byte('t'), Byte('u'), Byte('v')]

  lemma KeysAscend()
    ensures forall i, k :: 0 <= i < k < |KEYS| ==> KEYS[i] < KEYS[k]
    ensures forall i, k :: 0 <= i < k < |NAMED_KEYS| ==> NAMED_KEYS[i] < NAMED_KEYS[k]
  {
  }

  lemma SortedDistinct(fields: seq<Field>)
    requires Sorted(fields)
    ensures Distinct(fields)
  {
    forall i, k | 0 <= i < k < |fields|
      ensures fields[i].key != fields[k].key
    {
      assert fields[i].key[0] < fields[k].key[0];
    }
  }

  lemma NoName(p: Payload)
    requires p.name == []
    ensures forall k :: 0 <= k < |FieldsOf(p)| ==> FieldsOf(p)[k].key != Key('n')
  {
    assert |FieldsOf(p)| == 7;
    forall k | 0 <= k < 7
      ensures FieldsOf(p)[k].key[0] != Byte('n')
    {
    }
  }

  lemma Found(p: Payload, key: seq<byte>, value: seq<byte>)
    requires Field(key, value) in FieldsOf(p)
    ensures Get(EncodeFields(FieldsOf(p)), key) == value
  {
    FieldsSorted(p);
    SortedDistinct(FieldsOf(p));
    FirstOf(FieldsOf(p), key, value);
    GetEncoded(FieldsOf(p), key);
  }

  lemma FoundName(p: Payload)
    ensures Get(EncodeFields(FieldsOf(p)), Key('n')) == p.name
  {
    if p.name == [] {
      NoName(p);
      FirstMissing(FieldsOf(p), Key('n'));
      GetEncoded(FieldsOf(p), Key('n'));
    } else {
      assert FieldsOf(p)[3] == Field(Key('n'), p.name);
      Found(p, Key('n'), p.name);
    }
  }

  /** Every key of a printed link can be looked up, the absent name as the empty one. */
  lemma PrintedFields(p: Payload)
    ensures var q := EncodeFields(FieldsOf(p));
            && Get(q, Key('c')) == Encode64(p.code) && Get(q, Key('e')) == FormatInt(p.expires)
            && Get(q, Key('k')) == Encode64(p.bridgeKey) && Get(q, Key('n')) == p.name
            && Get(q, Key('s')) == p.sessionID && Get(q, Key('t')) == p.transport
            && Get(q, Key('u')) == p.url && Get(q, Key('v')) == FormatInt(p.version)
  {
    Found(p, Key('c'), Encode64(p.code));
    Found(p, Key('e'), FormatInt(p.expires));
    Found(p, Key('k'), Encode64(p.bridgeKey));
    FoundName(p);
    Found(p, Key('s'), p.sessionID);
    Found(p, Key('t'), p.transport);
    Found(p, Key('u'), p.url);
    Found(p, Key('v'), FormatInt(p.version));
  }

  lemma PrintedSplits(lib: Library, p: Payload)
    ensures Splits(lib) ==> Parse(lib, Print(p)) == ParseQuery(lib, EncodeFields(FieldsOf(p)))
  {
    EncodedIsQuery(FieldsOf(p));
  }

  /** What the parts of a printed link decode to. */
  ghost predicate Holds(p: Payload, q: seq<byte>) {
    && ParseInt(Get(q, Key('v'))) == Fitting(p.version) && ParseInt(Get(q, Key('e'))) == Fitting(p.expires)
    && Decode64(Get(q, Key('k'))) == Some(p.bridgeKey) && Decode64(Get(q, Key('c'))) == Some(p.code)
    && Get(q, Key('t')) == p.transport && Get(q, Key('u')) == p.url
    && Get(q, Key('s')) == p.sessionID && Get(q, Key('n')) == p.name
  }

  function Fitting(n: int): Option<int> {
    if -9223372036854775808 <= n <= 9223372036854775807 then Some(n) else None
  }

  lemma PrintedHolds(p: Payload)
    ensures Holds(p, EncodeFields(FieldsOf(p)))
  {
    PrintedFields(p);
    Base64RoundTrip(p.bridgeKey);
    Base64RoundTrip(p.code);
    IntRoundTrip(p.expires);
    IntRoundTrip(p.version);
  }

  lemma QueryRoundTrip(lib: Library, p: Payload, q: seq<byte>)
    requires Holds(p, q)
    ensures ParseQuery(lib, q) == Link(p) <==> WellFormed(lib, p)
  {
    hide Get, Decode64, ParseInt, WebSocketURL;
    ParsedIsWellFormed(lib, q);
    WebSocketIs(lib, p.url);
  }

  /** Printing and parsing gives a payload back exactly when it is well formed. */
  lemma {:induction false} PairRoundTrip(lib: Library, p: Payload)
    ensures Splits(lib) ==> (Parse(lib, Print(p)) == Link(p) <==> WellFormed(lib, p))
  {
    PrintedHolds(p);
    PrintedSplits(lib, p);
    QueryRoundTrip(lib, p, EncodeFields(FieldsOf(p)));
  }

  /** A link parses to a payload exactly if it is a hermes://pair link whose query holds that payload, part by part,
      and the payload is well formed. */
  lemma ParseIff(lib: Library, s: seq<byte>, p: Payload)
    ensures Parse(lib, s) == Link(p) <==>
              exists q :: lib.parseURL(s) == Some(Url(Ascii("hermes"), Ascii("pair"), q))
                          && Holds(p, q) && WellFormed(lib, p)
  {
    hide Holds, WellFormed, ParseQuery;
    match lib.parseURL(s)
    case None =>
    case Some(u) =>
      if u.scheme == Ascii("hermes") && u.host == Ascii("pair") {
        assert u == Url(Ascii("hermes"), Ascii("pair"), u.query);
        QueryIff(lib, u.query, p);
      }
  }

  lemma QueryIff(lib: Library, q: seq<byte>, p: Payload)
    ensures ParseQuery(lib, q) == Link(p) <==> Holds(p, q) && WellFormed(lib, p)
  {
    hide Holds, WellFormed, ParseQuery;
    if ParseQuery(lib, q) == Link(p) { ParsedHolds(lib, q); }
    if Holds(p, q) { QueryRoundTrip(lib, p, q); }
    if ParseQuery(lib, q) == Link(p) { ParsedIsWellFormed(lib, q); }
  }

  lemma ParsedHolds(lib: Library, q: seq<byte>)
    ensures ParseQuery(lib, q).Link? ==> Holds(ParseQuery(lib, q).payload, q)
  {
    hide Get, Decode64, ParseInt, WebSocketURL;
    Fits(Get(q, Key('e')));
  }

  lemma Fits(s: seq<byte>)
    ensures ParseInt(s).Some? ==> Fitting(ParseInt(s).value) == ParseInt(s)
  {
  }

  /** Segments that are empty, have a semicolon or are escaped badly count for nothing. */
  lemma BadSegmentsAreSkipped(segment: seq<byte>, rest: seq<byte>, key: seq<byte>)
    requires Byte('&') !in segment
    requires || segment == [] || Byte(';') in segment
             || Unescape(Before(segment, Byte('='))).None? || Unescape(After(segment, Byte('='))).None?
    ensures Get(segment + [Byte('&')] + rest, key) == Get(rest, key)
  {
    CutAt(segment, Byte('&'), rest);
  }

  lemma Regroup(a: seq<byte>, b: seq<byte>, c: seq<byte>, d: seq<byte>)
    ensures a + (b + c + d) == a + b + c + d
  {
  }

  /** Pairs are separated by ampersands, with none at the end. */
  lemma {:induction false} EncodedInTurn(fields: seq<Field>, f: Field)
    ensures EncodeFields(fields + [f])
         == if fields == [] then Segment(f) else EncodeFields(fields) + [Byte('&')] + Segment(f)
  {
    hide Segment;
    if fields == [] {
      assert [] + [f] == [f];
    } else {
      var all := fields + [f];
      assert all[1..] == fields[1..] + [f] && all[0] == fields[0];
      EncodedInTurn(fields[1..], f);
      if |fields| > 1 {
        Regroup(Segment(fields[0]) + [Byte('&')], EncodeFields(fields[1..]), [Byte('&')], Segment(f));
      }
    }
  }

  /** Whatever link parses, printing the result and parsing again gives the same payload. */
  lemma {:induction false} ParsedRoundTrip(lib: Library, s: seq<byte>)
    requires Parse(lib, s).Link?
    ensures WellFormed(lib, Parse(lib, s).payload)
    ensures Splits(lib) ==> Parse(lib, Print(Parse(lib, s).payload)) == Parse(lib, s)
  {
    var q := lib.parseURL(s).value.query;
    assert Parse(lib, s) == ParseQuery(lib, q);
    ParsedIsWellFormed(lib, q);
    PairRoundTrip(lib, ParseQuery(lib, q).payload);
  }

  lemma ParsedIsWellFormed(lib: Library, q: seq<byte>)
    ensures ParseQuery(lib, q).Link? ==> WellFormed(lib, ParseQuery(lib, q).payload)
  {
    hide Get, Decode64, ParseInt, WebSocketURL;
    WebSocketIs(lib, Get(q, Key('u')));
  }

  lemma WebSocketIs(lib: Library, url: seq<byte>)
    ensures WebSocketURL(lib, url) <==>
              exists u :: lib.parseURL(url) == Some(u)
                          && (u.scheme == Ascii("wss") || u.scheme == Ascii("ws")) && u.host != []
  {
  }
}

/** CloudEvents and how a stream record stores one, after section 3.2 of the CloudEvents Kafka
    Protocol Binding 1.0.2 (crates/loams-cloudevents/src/lib.rs and record.rs). */
module CloudEvents {
  import opened Prelude
  import opened Strings
  import opened Decimals

  type Bytes = seq<Byte>

  datatype AttrType = String | Integer | Boolean | Uri | UriRef | Timestamp | Binary

  function TypeName(kind: AttrType): string {
    match kind
    case String => "string"
    case Integer => "integer"
    case Boolean => "boolean"
    case Uri => "uri"
    case UriRef => "urireference"
    case Timestamp => "timestamp"
    case Binary => "binary"
  }

  function TypeNamed(name: string): Option<AttrType> {
    match name
    case "string" => Some(String)
    case "integer" => Some(Integer)
    case "boolean" => Some(Boolean)
    case "uri" => Some(Uri)
    case "urireference" => Some(UriRef)
    case "timestamp" => Some(Timestamp)
    case "binary" => Some(Binary)
    case _ => None
  }

  lemma TypeNames(kind: AttrType)
    ensures TypeNamed(TypeName(kind)) == Some(kind) && ',' !in TypeName(kind)
  {
  }

  datatype Attr = Attr(name: string, value: string, kind: AttrType)

  /** Attributes in their order, and data if there is any. */
  datatype Event = Event(attrs: seq<Attr>, data: Option<Bytes>)

  /** Milliseconds of an RFC 3339 timestamp. */
  type Rfc3339 = string -> Option<int>

  // ---- validate ----

  datatype Error = BadName | Duplicate | Empty | BadType | Missing | BadSpecVersion | BadTime | NotUtf8Header

  const SPEC_VERSION := "1.0"
  const CONTEXT: set<string> :=
    {"specversion", "id", "source", "type", "datacontenttype", "dataschema", "subject", "time"}
  const REQUIRED: seq<string> := ["specversion", "id", "source", "type"]

  predicate NameChar(c: char) {
    'a' <= c <= 'z' || IsDigit(c)
  }

  predicate ValidName(name: string) {
    name != "" && (forall i :: 0 <= i < |name| ==> NameChar(name[i])) && name != "data"
  }

  /** The spelling of a 32-bit integer that printing it gives back. */
  predicate Int32(s: string) {
    || (Canonical(s) && Value(s) <= 0x7FFF_FFFF)
    || (s != "" && s[0] == '-' && Canonical(s[1..]) && s[1..] != "0" && Value(s[1..]) <= 0x8000_0000)
  }

  predicate KindOk(rfc3339: Rfc3339, attr: Attr) {
    && (attr.name in CONTEXT ==>
          attr.value != "" && (attr.kind.String? || attr.kind.Uri? || attr.kind.UriRef? || attr.kind.Timestamp?))
    && (attr.kind.Integer? ==> Int32(attr.value))
    && (attr.kind.Boolean? ==> attr.value == "true" || attr.value == "false")
    && (attr.kind.Timestamp? ==> rfc3339(attr.value).Some?)
  }

  ghost predicate Distinct(attrs: seq<Attr>) {
    forall i, j :: 0 <= i < j < |attrs| ==> attrs[i].name != attrs[j].name
  }

  predicate Has(attrs: seq<Attr>, name: string) {
    exists i :: 0 <= i < |attrs| && attrs[i].name == name
  }

  /** What makes an event valid. */
  ghost predicate ValidAttrs(rfc3339: Rfc3339, attrs: seq<Attr>) {
    && (forall i :: 0 <= i < |attrs| ==> ValidName(attrs[i].name) && KindOk(rfc3339, attrs[i]))
    && Distinct(attrs)
    && (forall k :: 0 <= k < |REQUIRED| ==> Has(attrs, REQUIRED[k]))
    && (forall i :: 0 <= i < |attrs| && attrs[i].name == "specversion" ==> attrs[i].value == SPEC_VERSION)
    && (forall i :: 0 <= i < |attrs| && attrs[i].name == "time" ==> rfc3339(attrs[i].value).Some?)
  }

  /** A name is lower-case ASCII letters and digits, at least one, and not `data`. */
  lemma NameMeans(name: string)
    ensures ValidName(name) <==>
            && name != "" && name != "data"
            && forall i :: 0 <= i < |name| ==> 97 <= name[i] as int <= 122 || 48 <= name[i] as int <= 57
  {
    forall i | 0 <= i < |name|
      ensures NameChar(name[i]) <==> 97 <= name[i] as int <= 122 || 48 <= name[i] as int <= 57
    {
      assert 'a' as int == 97 && 'z' as int == 122 && '0' as int == 48 && '9' as int == 57;
    }
  }

  /** The decimal spelling of an integer. */
  function PrintInt(n: int): string {
    if n < 0 then "-" + Print(-n) else Print(n)
  }

  /** An integer value is the spelling of some 32-bit signed integer. */
  lemma IntegerMeans(s: string)
    ensures Int32(s) <==> exists n: int :: -0x8000_0000 <= n <= 0x7FFF_FFFF && s == PrintInt(n)
  {
    if Int32(s) {
      if Canonical(s) && Value(s) <= 0x7FFF_FFFF {
        CanonicalPrints(s);
        assert s == PrintInt(Value(s));
      } else {
        var digits := s[1..];
        CanonicalPrints(digits);
        assert s == "-" + digits == PrintInt(0 - Value(digits));
      }
    }
    if n: int :| -0x8000_0000 <= n <= 0x7FFF_FFFF && s == PrintInt(n) {
      PrintCanonical(if n < 0 then -n else n);
      if n < 0 {
        assert s[1..] == Print(-n) && Print(-n)[0] != '0';
      }
    }
  }

  /** The least a valid event has: version 1.0, and an id, a source and a type that are not empty. */
  lemma LeastEvent(rfc3339: Rfc3339, id: string, source: string, kind: string)
    ensures var attrs := [Attr("specversion", "1.0", String), Attr("id", id, String),
                          Attr("source", source, String), Attr("type", kind, String)];
            ValidAttrs(rfc3339, attrs) <==> id != "" && source != "" && kind != ""
  {
    var attrs := [Attr("specversion", "1.0", String), Attr("id", id, String),
                  Attr("source", source, String), Attr("type", kind, String)];
    assert attrs[1].value == id && attrs[2].value == source && attrs[3].value == kind;
    assert Has(attrs, "specversion") && Has(attrs, "id") && Has(attrs, "source") && Has(attrs, "type") by {
      assert attrs[0].name == "specversion" && attrs[1].name == "id";
      assert attrs[2].name == "source" && attrs[3].name == "type";
    }
    assert forall k :: 0 <= k < |REQUIRED| ==> Has(attrs, REQUIRED[k]);
  }

  /** A valid event names the four required attributes, each of which has a value, and is of version 1.0. */
  lemma RequiredPresent(rfc3339: Rfc3339, attrs: seq<Attr>)
    requires ValidAttrs(rfc3339, attrs)
    ensures Has(attrs, "specversion") && Has(attrs, "id") && Has(attrs, "source") && Has(attrs, "type")
    ensures forall i :: 0 <= i < |attrs| && attrs[i].name in CONTEXT ==> attrs[i].value != ""
    ensures forall i :: 0 <= i < |attrs| && attrs[i].name == "specversion" ==> attrs[i].value == "1.0"
  {
    assert Has(attrs, REQUIRED[0]) && Has(attrs, REQUIRED[1]) && Has(attrs, REQUIRED[2]) && Has(attrs, REQUIRED[3]);
  }

  /** The index of the first attribute `name`. */
  method Find(attrs: seq<Attr>, name: string) returns (r: Option<nat>)
    ensures r.Some? ==> r.value < |attrs| && attrs[r.value].name == name
    ensures r.None? ==> !Has(attrs, name)
  {
    for i := 0 to |attrs|
      invariant forall j :: 0 <= j < i ==> attrs[j].name != name
    {
      if attrs[i].name == name {
        return Some(i);
      }
    }
    r := None;
  }

  /** `error` is a fault `attrs` have. */
  ghost predicate Explains(rfc3339: Rfc3339, attrs: seq<Attr>, error: Error) {
    match error
    case BadName => exists i :: 0 <= i < |attrs| && !ValidName(attrs[i].name)
    case Duplicate => !Distinct(attrs)
    case Empty => exists i :: 0 <= i < |attrs| && attrs[i].name in CONTEXT && attrs[i].value == ""
    case BadType => exists i :: 0 <= i < |attrs| && !KindOk(rfc3339, attrs[i])
    case Missing => exists k :: 0 <= k < |REQUIRED| && !Has(attrs, REQUIRED[k])
    case BadSpecVersion => exists i :: 0 <= i < |attrs| && attrs[i].name == "specversion" && attrs[i].value != "1.0"
    case BadTime => exists i :: 0 <= i < |attrs| && attrs[i].name == "time" && rfc3339(attrs[i].value).None?
    case NotUtf8Header => false
  }

  /** Accepts exactly the valid attributes, and names a fault of the others. */
  method Validate(rfc3339: Rfc3339, attrs: seq<Attr>) returns (r: Option<Error>)
    ensures r.None? <==> ValidAttrs(rfc3339, attrs)
    ensures r.Some? ==> Explains(rfc3339, attrs, r.value)
  {
    for i := 0 to |attrs|
      invariant forall j :: 0 <= j < i ==> ValidName(attrs[j].name) && KindOk(rfc3339, attrs[j])
      invariant Distinct(attrs[..i])
    {
      var attr := attrs[i];
      if !ValidName(attr.name) {
        return Some(BadName);
      }
      var earlier := Find(attrs[..i], attr.name);
      if earlier.Some? {
        assert attrs[earlier.value].name == attrs[i].name;
        return Some(Duplicate);
      }
      assert forall j :: 0 <= j < i ==> attrs[..i][j].name != attr.name;
      var context := attr.name in CONTEXT;
      if context && attr.value == "" {
        return Some(Empty);
      }
      if context && !(attr.kind.String? || attr.kind.Uri? || attr.kind.UriRef? || attr.kind.Timestamp?) {
        return Some(BadType);
      }
      if attr.kind.Integer? && !Int32(attr.value) {
        return Some(BadType);
      }
      if attr.kind.Boolean? && attr.value != "true" && attr.value != "false" {
        return Some(BadType);
      }
      if attr.kind.Timestamp? && rfc3339(attr.value).None? {
        return Some(BadType);
      }
    }
    assert attrs[..|attrs|] == attrs;
    for k := 0 to |REQUIRED|
      invariant forall l :: 0 <= l < k ==> Has(attrs, REQUIRED[l])
    {
      var found := Find(attrs, REQUIRED[k]);
      if found.None? {
        return Some(Missing);
      }
    }
    var version := Find(attrs, "specversion");
    assert REQUIRED[0] == "specversion";
    if version.None? || attrs[version.value].value != SPEC_VERSION {
      return Some(BadSpecVersion);
    }
    OnlyOne(attrs, version.value);
    var time := Find(attrs, "time");
    if time.Some? {
      OnlyOne(attrs, time.value);
      if rfc3339(attrs[time.value].value).None? {
        return Some(BadTime);
      }
    }
    r := None;
  }

  lemma OnlyOne(attrs: seq<Attr>, i: nat)
    requires Distinct(attrs) && i < |attrs|
    ensures forall j :: 0 <= j < |attrs| && attrs[j].name == attrs[i].name ==> j == i
  {
  }

  // ---- Records ----

  /** A header value: text, or bytes that are not UTF-8, with what a lossy reading of them gives. */
  datatype HeaderValue = Utf8(text: string) | NotUtf8(lossy: string)

  datatype Header = Header(name: string, value: Option<HeaderValue>)

  datatype Record = Record(key: Option<string>, value: Option<Bytes>, headers: seq<Header>, timestamp: int)

  const HEADER_PREFIX := "ce_"
  const CONTENT_TYPE := "content-type"
  const TYPES_HEADER := "loams_ce_types"

  function AttrValue(attrs: seq<Attr>, name: string): (r: Option<string>)
  {
    if attrs == [] then None
    else if attrs[0].name == name then Some(attrs[0].value)
    else AttrValue(attrs[1..], name)
  }

  /** `partitionkey`, else `subject`. */
  function EventKey(e: Event): Option<string> {
    var key := AttrValue(e.attrs, "partitionkey");
    if key.Some? then key else AttrValue(e.attrs, "subject")
  }

  function TimeMs(rfc3339: Rfc3339, e: Event): Option<int> {
    var time := AttrValue(e.attrs, "time");
    if time.None? then None else rfc3339(time.value)
  }

  function HeaderName(name: string): string {
    if name == "datacontenttype" then CONTENT_TYPE else HEADER_PREFIX + name
  }

  /** One header an attribute, in their order. */
  function AttrHeaders(attrs: seq<Attr>): (r: seq<Header>)
  {
    if attrs == [] then []
    else
      var last := attrs[|attrs| - 1];
      AttrHeaders(attrs[..|attrs| - 1]) + [Header(HeaderName(last.name), Some(Utf8(last.value)))]
  }

  /** `name=type` of every attribute whose type is not string. */
  function TypeEntries(attrs: seq<Attr>): (r: seq<string>)
  {
    if attrs == [] then []
    else
      var last := attrs[|attrs| - 1];
      TypeEntries(attrs[..|attrs| - 1])
      + if last.kind.String? then [] else [last.name + "=" + TypeName(last.kind)]
  }

  function TypesHeader(entries: seq<string>): seq<Header> {
    if entries == [] then [] else [Header(TYPES_HEADER, Some(Utf8(Join(entries, ','))))]
  }

  function ToRecord(rfc3339: Rfc3339, e: Event): Record {
    var time := TimeMs(rfc3339, e);
    Record(
      EventKey(e), e.data, AttrHeaders(e.attrs) + TypesHeader(TypeEntries(e.attrs)),
      if time.Some? then time.value else -1)
  }

  method StoreEvent(rfc3339: Rfc3339, e: Event) returns (r: Record)
    ensures r == ToRecord(rfc3339, e)
  {
    var headers, types := [], [];
    for i := 0 to |e.attrs|
      invariant headers == AttrHeaders(e.attrs[..i]) && types == TypeEntries(e.attrs[..i])
    {
      assert e.attrs[..i + 1][..i] == e.attrs[..i];
      var attr := e.attrs[i];
      var name := if attr.name == "datacontenttype" then CONTENT_TYPE else HEADER_PREFIX + attr.name;
      headers := headers + [Header(name, Some(Utf8(attr.value)))];
      if !attr.kind.String? {
        types := types + [attr.name + "=" + TypeName(attr.kind)];
      }
    }
    assert e.attrs[..|e.attrs|] == e.attrs;
    if types != [] {
      headers := headers + [Header(TYPES_HEADER, Some(Utf8(Join(types, ','))))];
    }
    var time := TimeMs(rfc3339, e);
    r := Record(EventKey(e), e.data, headers, if time.Some? then time.value else -1);
  }

  // ---- Reading a record back ----

  function Lower(c: char): char {
    if 'A' <= c <= 'Z' then ((c as int) + 32) as char else c
  }

  predicate EqIgnoreCase(a: string, b: string) {
    |a| == |b| && forall i :: 0 <= i < |a| ==> Lower(a[i]) == Lower(b[i])
  }

  /** The attribute a header carries, if it carries one. */
  function HeaderAttr(name: string): Option<string> {
    if EqIgnoreCase(name, CONTENT_TYPE) then Some("datacontenttype")
    else if name == TYPES_HEADER then None
    else if HEADER_PREFIX <= name then Some(name[|HEADER_PREFIX|..])
    else None
  }

  /** The attributes of the headers, all as strings; `None` if a value is not UTF-8. */
  function ReadAttrs(headers: seq<Header>): (r: Option<seq<Attr>>)
  {
    if headers == [] then Some([])
    else
      var before := ReadAttrs(headers[..|headers| - 1]);
      var h := headers[|headers| - 1];
      var name := HeaderAttr(h.name);
      if before.None? || name.None? then before
      else if h.value.None? then Some(before.value + [Attr(name.value, "", String)])
      else if h.value.value.NotUtf8? then None
      else Some(before.value + [Attr(name.value, h.value.value.text, String)])
  }

  function Lossy(value: Option<HeaderValue>): string {
    match value
    case None => ""
    case Some(Utf8(text)) => text
    case Some(NotUtf8(lossy)) => lossy
  }

  /** The entries `name=type` that make sense. */
  function ParseTypes(entries: seq<string>): (r: seq<(string, AttrType)>)
  {
    if entries == [] then []
    else
      var before := ParseTypes(entries[..|entries| - 1]);
      match SplitOnce(entries[|entries| - 1], "=")
      case None => before
      case Some((name, kind)) => if TypeNamed(kind).Some? then before + [(name, TypeNamed(kind).value)] else before
  }

  predicate IsTypesHeader(h: Header) {
    !EqIgnoreCase(h.name, CONTENT_TYPE) && h.name == TYPES_HEADER
  }

  /** The types of the last types header. */
  function ReadTypes(headers: seq<Header>): (r: seq<(string, AttrType)>)
  {
    if headers == [] then []
    else
      var h := headers[|headers| - 1];
      if IsTypesHeader(h) then ParseTypes(Split(Lossy(h.value), ',')) else ReadTypes(headers[..|headers| - 1])
  }

  function KindOf(types: seq<(string, AttrType)>, name: string): (r: Option<AttrType>)
  {
    if types == [] then None
    else
      var before := KindOf(types[..|types| - 1], name);
      if before.Some? then before
      else if types[|types| - 1].0 == name then Some(types[|types| - 1].1)
      else None
  }

  function Retyped(attrs: seq<Attr>, types: seq<(string, AttrType)>): (r: seq<Attr>)
    ensures |r| == |attrs|
  {
    seq(|attrs|, i requires 0 <= i < |attrs| =>
      var kind := KindOf(types, attrs[i].name);
      if kind.Some? then attrs[i].(kind := kind.value) else attrs[i])
  }

  ghost function FromBinary(rfc3339: Rfc3339, r: Record): Option<Event> {
    var attrs := ReadAttrs(r.headers);
    if attrs.None? then None
    else
      var typed := Retyped(attrs.value, ReadTypes(r.headers));
      if ValidAttrs(rfc3339, typed) then Some(Event(typed, r.value)) else None
  }

  /** `from_binary`, loop by loop. */
  method ReadBinary(rfc3339: Rfc3339, r: Record) returns (e: Option<Event>)
    ensures e == FromBinary(rfc3339, r)
  {
    var attrs: seq<Attr> := [];
    var types: seq<(string, AttrType)> := [];
    for i := 0 to |r.headers|
      invariant ReadAttrs(r.headers[..i]) == Some(attrs) && ReadTypes(r.headers[..i]) == types
    {
      var h := r.headers[i];
      assert r.headers[..i + 1][..i] == r.headers[..i];
      var name;
      if EqIgnoreCase(h.name, CONTENT_TYPE) {
        name := "datacontenttype";
      } else if h.name == TYPES_HEADER {
        types := ParseTypes(Split(Lossy(h.value), ','));
        continue;
      } else if HEADER_PREFIX <= h.name {
        name := h.name[|HEADER_PREFIX|..];
      } else {
        continue;
      }
      if h.value.Some? && h.value.value.NotUtf8? {
        StaysNone(r.headers, i + 1);
        return None;
      }
      attrs := attrs + [Attr(name, if h.value.Some? then h.value.value.text else "", String)];
    }
    assert r.headers[..|r.headers|] == r.headers;
    var typed := attrs;
    for i := 0 to |attrs|
      invariant |typed| == |attrs|
      invariant forall j :: 0 <= j < i ==> typed[j] == Retyped(attrs, types)[j]
      invariant forall j :: i <= j < |attrs| ==> typed[j] == attrs[j]
    {
      var kind := KindOf(types, attrs[i].name);
      if kind.Some? {
        typed := typed[i := attrs[i].(kind := kind.value)];
      }
    }
    assert typed == Retyped(attrs, types);
    var fault := Validate(rfc3339, typed);
    e := if fault.None? then Some(Event(typed, r.value)) else None;
  }

  lemma {:induction false} StaysNone(headers: seq<Header>, i: nat)
    requires i <= |headers| && ReadAttrs(headers[..i]).None?
    ensures ReadAttrs(headers).None?
    decreases |headers|
  {
    if i == |headers| {
      assert headers[..i] == headers;
    } else {
      var front := headers[..|headers| - 1];
      assert front[..i] == headers[..i];
      StaysNone(front, i);
    }
  }

  // ---- The round trip ----

  function Untyped(attrs: seq<Attr>): (r: seq<Attr>)
    ensures |r| == |attrs|
  {
    seq(|attrs|, i requires 0 <= i < |attrs| => attrs[i].(kind := String))
  }

  lemma HeaderCarries(name: string)
    ensures HeaderAttr(HeaderName(name)) == Some(name)
    ensures !IsTypesHeader(Header(HeaderName(name), None))
  {
    if name != "datacontenttype" {
      var h := HEADER_PREFIX + name;
      assert h[0] == 'c' && h[1] == 'e' && CONTENT_TYPE[1] == 'o' && TYPES_HEADER[0] == 'l';
      assert Lower(h[1]) != Lower(CONTENT_TYPE[1]);
      assert h[|HEADER_PREFIX|..] == name;
    }
  }

  /** A header carries an attribute exactly when it is a content type, in any case, or has the prefix. */
  lemma HeaderMeans(header: string, name: string)
    ensures HeaderAttr(header) == Some(name) <==>
            if EqIgnoreCase(header, "content-type") then name == "datacontenttype" else header == "ce_" + name
    ensures EqIgnoreCase("Content-Type", "content-type")
  {
    if HEADER_PREFIX <= header {
      assert header == HEADER_PREFIX + header[|HEADER_PREFIX|..];
    }
    if header == "ce_" + name {
      assert header[0] == 'c' && TYPES_HEADER[0] == 'l' && header[|HEADER_PREFIX|..] == name;
    }
  }

  lemma {:induction false} HeadersCarry(attrs: seq<Attr>)
    ensures ReadAttrs(AttrHeaders(attrs)) == Some(Untyped(attrs)) && ReadTypes(AttrHeaders(attrs)) == []
  {
    if attrs != [] {
      hide HeaderAttr, HeaderName, IsTypesHeader;
      var n := |attrs| - 1;
      HeadersCarry(attrs[..n]);
      HeaderCarries(attrs[n].name);
      var headers := AttrHeaders(attrs);
      assert headers[..|headers| - 1] == AttrHeaders(attrs[..n]);
      TypesByName(headers[|headers| - 1]);
      assert Untyped(attrs) == Untyped(attrs[..n]) + [attrs[n].(kind := String)];
    }
  }

  /** Only its name makes a types header. */
  lemma TypesByName(h: Header)
    ensures IsTypesHeader(h) <==> IsTypesHeader(Header(h.name, None))
  {
  }

  lemma TypesHeaderReads(headers: seq<Header>, entries: seq<string>)
    requires entries != [] && forall i :: 0 <= i < |entries| ==> ',' !in entries[i]
    ensures ReadAttrs(headers + TypesHeader(entries)) == ReadAttrs(headers)
    ensures ReadTypes(headers + TypesHeader(entries)) == ParseTypes(entries)
  {
    var h := TypesHeader(entries)[0];
    var all := headers + TypesHeader(entries);
    assert all[..|all| - 1] == headers && all[|all| - 1] == h;
    assert |TYPES_HEADER| != |CONTENT_TYPE|;
    SplitOfJoin(entries, ',');
  }

  /** The types of the attributes that are not strings. */
  function TypePairs(attrs: seq<Attr>): (r: seq<(string, AttrType)>)
  {
    if attrs == [] then []
    else
      var last := attrs[|attrs| - 1];
      TypePairs(attrs[..|attrs| - 1]) + if last.kind.String? then [] else [(last.name, last.kind)]
  }

  lemma NameHasNo(name: string, c: char)
    requires ValidName(name) && !NameChar(c)
    ensures c !in name
  {
  }

  ghost predicate ValidNames(attrs: seq<Attr>) {
    forall i :: 0 <= i < |attrs| ==> ValidName(attrs[i].name)
  }

  lemma EntryReads(attr: Attr)
    requires ValidName(attr.name)
    ensures var entry := attr.name + "=" + TypeName(attr.kind);
            SplitOnce(entry, "=") == Some((attr.name, TypeName(attr.kind))) && ',' !in entry
  {
    NameHasNo(attr.name, '=');
    NameHasNo(attr.name, ',');
    TypeNames(attr.kind);
    SplitOnceAt(attr.name, "=", TypeName(attr.kind));
  }

  lemma {:induction false} EntriesRead(attrs: seq<Attr>)
    requires ValidNames(attrs)
    ensures ParseTypes(TypeEntries(attrs)) == TypePairs(attrs)
    ensures forall i :: 0 <= i < |TypeEntries(attrs)| ==> ',' !in TypeEntries(attrs)[i]
    ensures TypeEntries(attrs) == [] <==> TypePairs(attrs) == []
  {
    if attrs != [] {
      hide ValidName, TypeName, TypeNamed, SplitOnce;
      var n := |attrs| - 1;
      EntriesRead(attrs[..n]);
      EntryReads(attrs[n]);
      TypeNames(attrs[n].kind);
      var entries := TypeEntries(attrs);
      if attrs[n].kind.String? {
        assert entries == TypeEntries(attrs[..n]) && TypePairs(attrs) == TypePairs(attrs[..n]);
      } else {
        assert entries[..|entries| - 1] == TypeEntries(attrs[..n]);
      }
    }
  }

  lemma {:induction false} NotInPairs(attrs: seq<Attr>, name: string)
    requires forall i :: 0 <= i < |attrs| ==> attrs[i].name != name
    ensures KindOf(TypePairs(attrs), name) == None
  {
    if attrs != [] {
      var n := |attrs| - 1;
      NotInPairs(attrs[..n], name);
      KindStep(TypePairs(attrs[..n]), (attrs[n].name, attrs[n].kind), name);
      assert TypePairs(attrs[..n]) + [] == TypePairs(attrs[..n]);
    }
  }

  lemma KindStep(types: seq<(string, AttrType)>, pair: (string, AttrType), name: string)
    ensures KindOf(types + [pair], name)
         == if KindOf(types, name).Some? then KindOf(types, name) else if pair.0 == name then Some(pair.1) else None
  {
    assert (types + [pair])[..|types|] == types;
  }

  lemma {:induction false} PairsFind(attrs: seq<Attr>, i: nat)
    requires Distinct(attrs) && i < |attrs|
    ensures KindOf(TypePairs(attrs), attrs[i].name) == if attrs[i].kind.String? then None else Some(attrs[i].kind)
    decreases |attrs|
  {
    var n := |attrs| - 1;
    if i < n {
      PairsFind(attrs[..n], i);
      assert attrs[..n][i] == attrs[i];
    } else {
      NotInPairs(attrs[..n], attrs[n].name);
    }
    KindStep(TypePairs(attrs[..n]), (attrs[n].name, attrs[n].kind), attrs[i].name);
    assert TypePairs(attrs[..n]) + [] == TypePairs(attrs[..n]);
  }

  /** Typing the untyped attributes from their pairs gives them back. */
  lemma RetypedBack(attrs: seq<Attr>)
    requires Distinct(attrs)
    ensures Retyped(Untyped(attrs), TypePairs(attrs)) == attrs
  {
    hide TypePairs, KindOf;
    forall i | 0 <= i < |attrs| ensures Retyped(Untyped(attrs), TypePairs(attrs))[i] == attrs[i] {
      PairsFind(attrs, i);
    }
  }

  lemma StoredReads(rfc3339: Rfc3339, e: Event)
    requires ValidNames(e.attrs)
    ensures var r := ToRecord(rfc3339, e);
            ReadAttrs(r.headers) == Some(Untyped(e.attrs)) && ReadTypes(r.headers) == TypePairs(e.attrs)
  {
    hide ReadAttrs, ReadTypes, AttrHeaders, TypeEntries, TypePairs, ParseTypes;
    HeadersCarry(e.attrs);
    EntriesRead(e.attrs);
    var entries := TypeEntries(e.attrs);
    if entries == [] {
      assert AttrHeaders(e.attrs) + TypesHeader(entries) == AttrHeaders(e.attrs);
    } else {
      TypesHeaderReads(AttrHeaders(e.attrs), entries);
    }
  }

  /** Every valid event is read back from its record unchanged: attribute order, exact values, types,
      and whether it has data. */
  lemma BinaryRoundTrip(rfc3339: Rfc3339, e: Event)
    requires ValidAttrs(rfc3339, e.attrs)
    ensures FromBinary(rfc3339, ToRecord(rfc3339, e)) == Some(e)
  {
    hide ReadAttrs, ReadTypes, Retyped, Untyped, TypePairs, AttrHeaders, TypesHeader, ValidName, KindOk, Has;
    StoredReads(rfc3339, e);
    RetypedBack(e.attrs);
  }

  /** `from_record`: the binary layout when there is a `ce_specversion` header, else what `otherwise`
      makes of the record; also that when the headers are not a valid event. */
  ghost function FromRecord(
    rfc3339: Rfc3339, r: Record, structured: Record -> Option<Event>, otherwise: Record -> Event)
    : Event
  {
    var parsed :=
      if exists i :: 0 <= i < |r.headers| && r.headers[i].name == "ce_specversion" then FromBinary(rfc3339, r)
      else structured(r);
    if parsed.Some? then parsed.value else otherwise(r)
  }

  lemma {:induction false} AttrHeaderAt(attrs: seq<Attr>, i: nat)
    requires i < |attrs|
    ensures |AttrHeaders(attrs)| == |attrs|
    ensures AttrHeaders(attrs)[i] == Header(HeaderName(attrs[i].name), Some(Utf8(attrs[i].value)))
  {
    var n := |attrs| - 1;
    if n > 0 { AttrHeaderAt(attrs[..n], if i < n then i else 0); }
  }

  lemma {:induction false} AttrValueIs(attrs: seq<Attr>, name: string)
    requires Distinct(attrs)
    ensures forall i :: 0 <= i < |attrs| && attrs[i].name == name ==> AttrValue(attrs, name) == Some(attrs[i].value)
    ensures !Has(attrs, name) ==> AttrValue(attrs, name) == None
  {
    if attrs != [] {
      assert Distinct(attrs[1..]);
      AttrValueIs(attrs[1..], name);
      assert forall i :: 0 < i < |attrs| ==> attrs[i] == attrs[1..][i - 1];
      if !Has(attrs, name) {
        assert attrs[0].name != name && !Has(attrs[1..], name);
      }
    }
  }

  lemma {:induction false} SomeTyped(attrs: seq<Attr>)
    ensures TypeEntries(attrs) == [] <==> forall i :: 0 <= i < |attrs| ==> attrs[i].kind.String?
  {
    if attrs != [] {
      var n := |attrs| - 1;
      SomeTyped(attrs[..n]);
      assert forall i :: 0 <= i < n ==> attrs[..n][i] == attrs[i];
    }
  }

  /** The binary layout: one header an attribute, in their order, the content type under its own name
      and the others behind the prefix; after them the types, if any attribute is not a string; the data
      as the value; the partition key, else the subject, as the key; and the event's time, else -1. */
  lemma RecordLayout(rfc3339: Rfc3339, e: Event)
    requires ValidAttrs(rfc3339, e.attrs)
    ensures var r, n := ToRecord(rfc3339, e), |e.attrs|;
            && r.value == e.data
            && |r.headers| == n + (if exists i :: 0 <= i < n && !e.attrs[i].kind.String? then 1 else 0)
            && (forall i :: 0 <= i < n ==> r.headers[i].value == Some(Utf8(e.attrs[i].value)))
            && (forall i :: 0 <= i < n ==>
                  r.headers[i].name
                  == if e.attrs[i].name == "datacontenttype" then "content-type" else "ce_" + e.attrs[i].name)
            && (|r.headers| > n ==> r.headers[n].name == "loams_ce_types")
            && (forall i :: 0 <= i < n && e.attrs[i].name == "partitionkey" ==> r.key == Some(e.attrs[i].value))
            && (!Has(e.attrs, "partitionkey") ==>
                  && (forall i :: 0 <= i < n && e.attrs[i].name == "subject" ==> r.key == Some(e.attrs[i].value))
                  && (!Has(e.attrs, "subject") ==> r.key == None))
            && (forall i :: 0 <= i < n && e.attrs[i].name == "time" ==> rfc3339(e.attrs[i].value) == Some(r.timestamp))
            && (!Has(e.attrs, "time") ==> r.timestamp == -1)
  {
    hide AttrHeaders, TypeEntries, AttrValue, ValidName, KindOk;
    var r := ToRecord(rfc3339, e);
    AttrValueIs(e.attrs, "partitionkey");
    AttrValueIs(e.attrs, "subject");
    AttrValueIs(e.attrs, "time");
    SomeTyped(e.attrs);
    forall i | 0 <= i < |e.attrs|
      ensures |AttrHeaders(e.attrs)| == |e.attrs|
      ensures r.headers[i] == Header(HeaderName(e.attrs[i].name), Some(Utf8(e.attrs[i].value)))
    {
      AttrHeaderAt(e.attrs, i);
    }
    var spec := SpecVersionAt(rfc3339, e.attrs);
  }

  lemma RecordRoundTrip(
    rfc3339: Rfc3339, e: Event, structured: Record -> Option<Event>, otherwise: Record -> Event)
    requires ValidAttrs(rfc3339, e.attrs)
    ensures FromRecord(rfc3339, ToRecord(rfc3339, e), structured, otherwise) == e
  {
    hide FromBinary, ValidAttrs, ToRecord;
    BinaryRoundTrip(rfc3339, e);
    SpecVersionHeader(rfc3339, e);
  }

  lemma SpecVersionHeader(rfc3339: Rfc3339, e: Event)
    requires ValidAttrs(rfc3339, e.attrs)
    ensures var headers := ToRecord(rfc3339, e).headers;
            exists i :: 0 <= i < |headers| && headers[i].name == "ce_specversion"
  {
    hide ValidAttrs, AttrHeaders, TypesHeader, TypeEntries, EventKey, TimeMs;
    var i := SpecVersionAt(rfc3339, e.attrs);
    AttrHeaderAt(e.attrs, i);
    var headers := ToRecord(rfc3339, e).headers;
    assert headers[i] == AttrHeaders(e.attrs)[i];
    SpecVersionName(headers[i].name);
  }

  lemma SpecVersionAt(rfc3339: Rfc3339, attrs: seq<Attr>) returns (i: nat)
    requires ValidAttrs(rfc3339, attrs)
    ensures i < |attrs| && attrs[i].name == "specversion"
  {
    hide ValidName, KindOk;
    assert Has(attrs, REQUIRED[0]);
    i :| 0 <= i < |attrs| && attrs[i].name == "specversion";
  }

  lemma SpecVersionName(name: string)
    requires name == HeaderName("specversion")
    ensures name == "ce_specversion"
  {
  }
}

/**
 * The endpoint URI: parts that can be set independently, each valid or not, a service string
 * derived from port or protocol, and the formatter.
 */
module Endpoint {
  import opened Options
  import opened Bytes
  import opened Pct

  datatype Part = PartProto | PartHost | PartPort | PartPath | PartQuery

  const ALL_PARTS := {PartProto, PartHost, PartPort, PartPath, PartQuery}

  lemma {:induction false} PartByPart(parts: set<Part>)
    ensures parts == {} <==>
            PartProto !in parts && PartHost !in parts && PartPort !in parts && PartPath !in parts && PartQuery !in parts
    ensures parts == ALL_PARTS <==>
            PartProto in parts && PartHost in parts && PartPort in parts && PartPath in parts && PartQuery in parts
  {
    forall p: Part
      ensures p in ALL_PARTS
    {
      match p
      case PartProto | PartHost | PartPort | PartPath | PartQuery =>
    }
    if parts != {} {
      var p :| p in parts;
      assert p in ALL_PARTS;
    }
  }

  datatype Subset = Full | Resource

  type Protocol = nat

  const PROTO_NONE: Protocol := 0

  const SEPARATOR: seq<Byte> := [':' as int, '/' as int, '/' as int]
  const COLON: Byte := ':' as int

  datatype Attrs = Attrs(scheme: seq<Byte>, pathSupported: bool, defaultPort: int)

  /** The protocol map: known protocols with valid default ports, if any. */
  ghost predicate GoodMap(protos: map<Protocol, Attrs>) {
    PROTO_NONE !in protos && forall p :: p in protos ==> protos[p].defaultPort <= 65535
  }

  /** Digits of a number, most significant first. */
  function Decimal(n: nat): (s: seq<Byte>)
    ensures s != []
  {
    if n < 10 then ['0' as int + n] else Decimal(n / 10) + ['0' as int + n % 10]
  }

  /** The number written by a string of digits. */
  function Number(s: seq<Byte>): int {
    if s == [] then 0 else Number(s[..|s| - 1]) * 10 + s[|s| - 1] - '0' as int
  }

  lemma {:induction false} DecimalReadsBack(n: nat)
    ensures Number(Decimal(n)) == n
    ensures forall i :: 0 <= i < |Decimal(n)| ==> IsDigit(Decimal(n)[i])
  {
    if n < 10 {
      assert Decimal(n)[..0] == [];
    } else {
      DecimalReadsBack(n / 10);
      var d := Decimal(n);
      assert d[..|d| - 1] == Decimal(n / 10);
    }
  }

  lemma {:induction false} DecimalShort(n: nat)
    requires n <= 65535
    ensures |Decimal(n)| <= 5
  {
    assert n / 10 <= 6553 && n / 10 / 10 <= 655 && n / 10 / 10 / 10 <= 65 && n / 10 / 10 / 10 / 10 <= 6;
    assert |Decimal(n / 10 / 10 / 10 / 10)| <= 1;
    assert |Decimal(n / 10 / 10 / 10)| <= 2;
    assert |Decimal(n / 10 / 10)| <= 3;
    assert |Decimal(n / 10)| <= 4;
  }

  /** A byte string as C sees it: up to the first NUL. */
  function CStr(s: seq<Byte>): seq<Byte> {
    if s == [] || s[0] == 0 then [] else [s[0]] + CStr(s[1..])
  }

  lemma {:induction false} CStrOfNulFree(s: seq<Byte>)
    requires NulFree(s)
    ensures CStr(s) == s
  {
    if s != [] {
      CStrOfNulFree(s[1..]);
    }
  }

  lemma {:induction false} CStrIsNulFree(s: seq<Byte>)
    ensures NulFree(CStr(s)) && CStr(CStr(s)) == CStr(s)
    ensures CStr(s) == [] <==> s == [] || s[0] == 0
  {
    if s != [] && s[0] != 0 {
      CStrIsNulFree(s[1..]);
    }
    CStrOfNulFree(CStr(s));
  }

  /** Path and query as the formatter writes them. */
  ghost function ResourceText(path: seq<Byte>, query: seq<Byte>): seq<Byte>
    requires NulFree(path)
  {
    EncodeFailsIff(path, NonPath);
    Encode(path, NonPath).value + if query == [] then [] else [QUESTION] + CStr(query)
  }

  /** The part before the first question mark, and what follows it, if there is one. */
  function SplitQuery(s: seq<Byte>): (seq<Byte>, Option<seq<Byte>>) {
    if s == [] then ([], None)
    else if s[0] == QUESTION then ([], Some(s[1..]))
    else
      var (left, right) := SplitQuery(s[1..]);
      ([s[0]] + left, right)
  }

  lemma {:induction false} SplitAtFirst(left: seq<Byte>, right: seq<Byte>)
    requires QUESTION !in left
    ensures SplitQuery(left) == (left, None)
    ensures SplitQuery(left + [QUESTION] + right) == (left, Some(right))
  {
    var s := left + [QUESTION] + right;
    if left == [] {
      assert s[1..] == right;
    } else {
      SplitAtFirst(left[1..], right);
      assert s[1..] == left[1..] + [QUESTION] + right;
      assert [left[0]] + left[1..] == left;
    }
  }

  /** Nothing is lost: splitting the text and decoding its left part gives back the path and the query. */
  lemma {:induction false} ResourceReadsBack(path: seq<Byte>, query: seq<Byte>)
    requires NulFree(path)
    ensures var (left, right) := SplitQuery(ResourceText(path, query));
            && Decode(left) == Some(path)
            && right == if query == [] then None else Some(CStr(query))
  {
    DecodeEncode(path, NonPath);
    EncodeHasNoQuestion(path, NonPath);
    var left := Encode(path, NonPath).value;
    SplitAtFirst(left, CStr(query));
    assert left + [] == left;
    assert left + ([QUESTION] + CStr(query)) == left + [QUESTION] + CStr(query);
  }

  // ---------------------------------------------------------------- reading the authority back

  /** The beginning of a text up to the first of some characters. */
  function Until(s: seq<Byte>, stops: string): (r: seq<Byte>)
    ensures |r| <= |s| && r == s[..|r|]
  {
    if s == [] || OneOf(s[0], stops) then []
    else
      var rest := Until(s[1..], stops);
      assert s[..|rest| + 1] == [s[0]] + s[1..][..|rest|];
      [s[0]] + rest
  }

  predicate FreeOf(s: seq<Byte>, stops: string) { forall i :: 0 <= i < |s| ==> !OneOf(s[i], stops) }

  /** A text that ends, or goes on with one of some characters. */
  predicate Begins(s: seq<Byte>, stops: string) { s == [] || OneOf(s[0], stops) }

  lemma {:induction false} UntilStop(s: seq<Byte>, t: seq<Byte>, stops: string)
    requires FreeOf(s, stops) && Begins(t, stops)
    ensures Until(s + t, stops) == s && (s + t)[|s|..] == t
  {
    hide OneOf;
    if s == [] {
      assert s + t == t;
    } else {
      assert FreeOf(s[1..], stops);
      UntilStop(s[1..], t, stops);
      assert (s + t)[1..] == s[1..] + t;
    }
  }

  datatype Authority = Authority(scheme: seq<Byte>, host: seq<Byte>, port: Option<int>, rest: seq<Byte>)

  /** Where the host ends: behind a closing bracket if it begins with one, else before port, path or query. */
  function HostOf(s: seq<Byte>): (r: seq<Byte>)
    ensures |r| <= |s|
  {
    if s != [] && s[0] == '[' as int then
      var inner := Until(s, "]");
      if |inner| < |s| then s[..|inner| + 1] else s
    else Until(s, ":/?")
  }

  /** Scheme, host and port as the grammar of endpoint URIs splits them. */
  function ReadAuthority(s: seq<Byte>): Option<Authority> {
    var scheme := Until(s, ":");
    var tail := s[|scheme|..];
    if |tail| < 3 || tail[..3] != SEPARATOR then None
    else
      var text := tail[3..];
      var host := HostOf(text);
      var (port, rest) := ReadPort(text[|host|..]);
      Some(Authority(scheme, host, port, rest))
  }

  /** A colon and digits, if they are there, and what follows. */
  function ReadPort(s: seq<Byte>): (Option<int>, seq<Byte>) {
    if s == [] || s[0] != COLON then (None, s)
    else
      var digits := Until(s[1..], "/?");
      (Some(Number(digits)), s[1..][|digits|..])
  }

  /** A name or address without delimiters, or anything in brackets. */
  ghost predicate HostText(host: seq<Byte>) {
    if host != [] && host[0] == '[' as int
    then |host| >= 2 && host[|host| - 1] == ']' as int && FreeOf(host[..|host| - 1], "]")
    else FreeOf(host, ":/?")
  }

  ghost function WriteAuthority(scheme: seq<Byte>, host: seq<Byte>, port: int): seq<Byte> {
    scheme + SEPARATOR + host + WritePort(port)
  }

  /** A negative port is not written. */
  ghost function WritePort(port: int): seq<Byte> { if port >= 0 then [COLON] + Decimal(port) else [] }

  lemma {:induction false} HostReadsBack(host: seq<Byte>, after: seq<Byte>)
    requires HostText(host) && Begins(after, ":/?") && host != []
    ensures HostOf(host + after) == host && (host + after)[|host|..] == after
  {
    var s := host + after;
    if host[0] == '[' as int {
      var inner := host[..|host| - 1];
      assert s == inner + ([']' as int] + after);
      UntilStop(inner, [']' as int] + after, "]");
    } else {
      UntilStop(host, after, ":/?");
    }
  }

  lemma {:induction false} DigitsFree(s: seq<Byte>)
    requires forall i :: 0 <= i < |s| ==> IsDigit(s[i])
    ensures FreeOf(s, "/?")
  {
  }

  /** Scheme, host and port can be read back from the text, with what follows them. */
  lemma {:induction false} AuthorityReadsBack(scheme: seq<Byte>, host: seq<Byte>, port: int, rest: seq<Byte>)
    requires FreeOf(scheme, ":") && host != [] && HostText(host) && Begins(rest, "/?")
    ensures ReadAuthority(WriteAuthority(scheme, host, port) + rest)
         == Some(Authority(scheme, host, if port >= 0 then Some(port) else None, rest))
  {
    hide HostText, HostOf, ReadPort, WritePort, FreeOf, OneOf, Until;
    var tail := WritePort(port) + rest;
    assert WriteAuthority(scheme, host, port) + rest == scheme + (SEPARATOR + (host + tail));
    SeparatorStops(host + tail);
    UntilStop(scheme, SEPARATOR + (host + tail), ":");
    assert (SEPARATOR + (host + tail))[3..] == host + tail;
    PortReadsBack(port, rest);
    HostReadsBack(host, tail);
  }

  lemma {:induction false} SeparatorStops(s: seq<Byte>)
    ensures Begins(SEPARATOR + s, ":") && (SEPARATOR + s)[..3] == SEPARATOR
  {
  }

  lemma {:induction false} PortReadsBack(port: int, rest: seq<Byte>)
    requires Begins(rest, "/?")
    ensures var tail := WritePort(port) + rest;
            Begins(tail, ":/?") && ReadPort(tail) == (if port >= 0 then Some(port) else None, rest)
  {
    hide Decimal, Number, OneOf, Until, FreeOf;
    var tail := WritePort(port) + rest;
    StopsCompared(rest);
    if port >= 0 {
      DecimalReadsBack(port);
      DigitsFree(Decimal(port));
      assert tail[0] == COLON && tail[1..] == Decimal(port) + rest;
      UntilStop(Decimal(port), rest, "/?");
    } else {
      assert tail == rest;
    }
  }

  lemma {:induction false} StopsCompared(rest: seq<Byte>)
    requires Begins(rest, "/?")
    ensures Begins(rest, ":/?") && (rest != [] ==> rest[0] != COLON) && OneOf(COLON, ":/?")
  {
  }

  /** A whole URI with a path that is empty or begins with a slash: all five parts can be read back. */
  lemma {:induction false} UriReadsBack(scheme: seq<Byte>, host: seq<Byte>, port: int, path: seq<Byte>, query: seq<Byte>)
    requires FreeOf(scheme, ":") && host != [] && HostText(host)
    requires NulFree(path) && (path == [] || path[0] == '/' as int)
    ensures var read := ReadAuthority(WriteAuthority(scheme, host, port) + ResourceText(path, query));
            && read.Some?
            && read.value.(rest := []) == Authority(scheme, host, if port >= 0 then Some(port) else None, [])
            && var (left, right) := SplitQuery(read.value.rest);
               && Decode(left) == Some(path)
               && right == if query == [] then None else Some(CStr(query))
  {
    hide WriteAuthority, ReadAuthority, HostText, FreeOf, CStr;
    ResourceBegins(path, query);
    AuthorityReadsBack(scheme, host, port, ResourceText(path, query));
    ResourceReadsBack(path, query);
  }

  lemma {:induction false} ResourceBegins(path: seq<Byte>, query: seq<Byte>)
    requires NulFree(path) && (path == [] || path[0] == '/' as int)
    ensures Begins(ResourceText(path, query), "/?")
  {
    hide CStr;
    EncodeFailsIff(path, NonPath);
    if path != [] {
      PlainIff(NonPath, '/' as int);
      assert Encode(path, NonPath).value[0] == '/' as int;
    }
  }

  /** A missing string is assigned like an empty one. */
  function OrEmpty(s: Option<seq<Byte>>): seq<Byte> {
    if s.Some? then s.value else []
  }

  class EndpointUri {
    const protos: map<Protocol, Attrs>

    var invalid: set<Part>
    var proto: Protocol
    var host: seq<Byte>
    var port: int
    var service: seq<Byte>
    var path: seq<Byte>
    var query: seq<Byte>

    /** A valid port part means: the service is the explicit port, or the default port of the protocol. */
    ghost predicate Valid()
      reads this
    {
      && GoodMap(protos)
      && (PartProto !in invalid ==> proto in protos)
      && (PartHost !in invalid ==> host != [])
      && -1 <= port <= 65535
      && (PartPort !in invalid ==>
            if port != -1 then service == Decimal(port)
            else proto in protos && protos[proto].defaultPort > 0 && service == Decimal(protos[proto].defaultPort))
    }

    constructor (protos: map<Protocol, Attrs>)
      requires GoodMap(protos)
      ensures Valid() && this.protos == protos
      ensures invalid == {PartProto, PartHost, PartPort} && path == [] && query == []
    {
      this.protos := protos;
      invalid := {PartProto, PartHost, PartPort};
      proto, host, port, service, path, query := PROTO_NONE, [], -1, [], [], [];
    }

    method Clear(subset: Subset)
      requires Valid()
      modifies this
      ensures Valid() && path == [] && query == []
      ensures subset == Full ==>
                && invalid == old(invalid) + {PartProto, PartHost, PartPort} - {PartPath, PartQuery}
                && proto == PROTO_NONE && host == [] && port == -1 && service == []
      ensures subset == Resource ==>
                && invalid == old(invalid) - {PartPath, PartQuery}
                && proto == old(proto) && host == old(host) && port == old(port) && service == old(service)
    {
      if subset == Full {
        invalid := invalid + {PartProto};
        proto := PROTO_NONE;
        invalid := invalid + {PartHost};
        host := [];
        invalid := invalid + {PartPort};
        port := -1;
        service := [];
      }
      invalid := invalid - {PartPath};
      path := [];
      invalid := invalid - {PartQuery};
      query := [];
    }

    method Invalidate(subset: Subset)
      requires Valid()
      modifies this`invalid
      ensures Valid()
      ensures invalid == old(invalid) + {PartPath, PartQuery} + if subset == Full then {PartProto, PartHost, PartPort} else {}
    {
      if subset == Full {
        invalid := invalid + {PartProto, PartHost, PartPort};
      }
      invalid := invalid + {PartPath, PartQuery};
    }

    /** set_service_from_proto_ */
    method SetServiceFromProto(p: Protocol) returns (ok: bool)
      requires GoodMap(protos)
      modifies this`service
      ensures ok <==> p in protos && protos[p].defaultPort > 0
      ensures service == if ok then Decimal(protos[p].defaultPort) else old(service)
    {
      if p !in protos || protos[p].defaultPort <= 0 {
        return false;
      }
      DecimalShort(protos[p].defaultPort);
      service := Decimal(protos[p].defaultPort);
      return true;
    }

    method SetProto(p: Protocol) returns (ok: bool)
      requires Valid()
      modifies this`invalid, this`proto, this`service
      ensures Valid()
      ensures ok <==> p in protos
      ensures !ok ==> invalid == old(invalid) + {PartProto} && proto == old(proto) && service == old(service)
      ensures ok ==> proto == p && invalid == old(invalid) - {PartProto, PartPort} + (invalid * {PartPort})
      ensures ok && port == -1 ==> (PartPort !in invalid <==> protos[p].defaultPort > 0)
      ensures ok && port != -1 ==> (PartPort !in invalid <==> PartPort !in old(invalid)) && service == old(service)
    {
      if p !in protos {
        invalid := invalid + {PartProto};
        return false;
      }
      proto := p;
      if port == -1 {
        var known := SetServiceFromProto(p);
        invalid := if known then invalid - {PartPort} else invalid + {PartPort};
      }
      invalid := invalid - {PartProto};
      return true;
    }

    method SetHost(str: seq<Byte>) returns (ok: bool)
      requires Valid()
      modifies this`invalid, this`host
      ensures Valid()
      ensures ok <==> str != []
      ensures host == str && invalid == if ok then old(invalid) - {PartHost} else old(invalid) + {PartHost}
    {
      host := str;
      ok := host != [];
      invalid := if ok then invalid - {PartHost} else invalid + {PartHost};
    }

    /** -1 means: use the default port of the protocol. */
    method SetPort(p: int) returns (ok: bool)
      requires Valid()
      modifies this`invalid, this`port, this`service
      ensures Valid()
      ensures ok <==> -1 <= p <= 65535
      ensures port == if ok then p else old(port)
      ensures invalid == old(invalid) - {PartPort} + (invalid * {PartPort})
      ensures PartPort !in invalid <==>
              0 <= p <= 65535 || (p == -1 && PartProto !in invalid && protos[proto].defaultPort > 0)
    {
      if p == -1 {
        port := -1;
        if PartProto !in invalid {
          var known := SetServiceFromProto(proto);
          invalid := if known then invalid - {PartPort} else invalid + {PartPort};
        } else {
          invalid := invalid + {PartPort};
        }
        return true;
      }
      if p < 0 || p > 65535 {
        invalid := invalid + {PartPort};
        return false;
      }
      port := p;
      DecimalShort(p);
      service := Decimal(p);
      invalid := invalid - {PartPort};
      return true;
    }

    method SetPath(str: seq<Byte>)
      requires Valid()
      modifies this`invalid, this`path
      ensures Valid() && path == str && invalid == old(invalid) - {PartPath}
    {
      path := str;
      invalid := invalid - {PartPath};
    }

    method SetEncodedQuery(str: seq<Byte>)
      requires Valid()
      modifies this`invalid, this`query
      ensures Valid() && query == str && invalid == old(invalid) - {PartQuery}
    {
      query := str;
      invalid := invalid - {PartQuery};
    }

    /** A malformed string leaves the path invalid; an empty one clears it. */
    method SetEncodedPath(str: seq<Byte>) returns (ok: bool)
      requires Valid()
      modifies this`invalid, this`path
      ensures Valid()
      ensures ok <==> Decode(str).Some?
      ensures invalid == if ok then old(invalid) - {PartPath} else old(invalid) + {PartPath}
      ensures ok ==> Decode(str) == Some(path) && NulFree(path)
    {
      if str == [] {
        path := [];
        invalid := invalid - {PartPath};
        return true;
      }
      ok, path := PctDecode(str);
      if !ok {
        invalid := invalid + {PartPath};
        return;
      }
      DecodeNulFree(str);
      invalid := invalid - {PartPath};
    }

    function Proto(): Protocol
      reads this
    {
      if PartProto in invalid then PROTO_NONE else proto
    }

    function Host(): seq<Byte>
      reads this
    {
      if PartHost in invalid then [] else CStr(host)
    }

    function Port(): int
      reads this
    {
      if PartPort in invalid then -1 else port
    }

    function Path(): Option<seq<Byte>>
      reads this
    {
      if PartPath in invalid || path == [] then None else Some(CStr(path))
    }

    function Query(): Option<seq<Byte>>
      reads this
    {
      if PartQuery in invalid || query == [] then None else Some(CStr(query))
    }

    predicate IsEqual(other: EndpointUri)
      reads this, other
    {
      && invalid == {} && other.invalid == {}
      && Proto() == other.Proto()
      && Host() == other.Host()
      && Port() == other.Port()
      && Path() == other.Path()
      && Query() == other.Query()
    }

    /** Parts that a copy through C strings carries over. */
    ghost predicate Copyable()
      reads this
    {
      && invalid == {}
      && host != [] && host[0] != 0
      && (path != [] ==> path[0] != 0)
      && (query != [] ==> query[0] != 0)
    }

    /** This object got every part of the other one through its accessors. */
    ghost predicate CopyOf(other: EndpointUri)
      reads this, other
    {
      && protos == other.protos
      && invalid <= {PartPort}
      && (PartPort in invalid ==> PartPort in other.invalid)
      && proto == other.Proto()
      && host == other.Host()
      && port == other.Port()
      && path == OrEmpty(other.Path())
      && query == OrEmpty(other.Query())
    }

    lemma {:induction false} CopyEqualsIff(other: EndpointUri)
      requires Valid() && other.Valid() && CopyOf(other)
      ensures IsEqual(other) <==> other.Copyable()
      ensures other.Copyable() ==> service == other.service
    {
      hide Decimal, NulFree, CStr;
      CStrIsNulFree(other.host);
      CStrIsNulFree(other.path);
      CStrIsNulFree(other.query);
      assert other.invalid == {} ==> invalid == {};
    }

    /**
     * The copy succeeds exactly when the other object is a different one with a known protocol
     * and a host; it equals the original exactly when that is entirely valid besides.
     */
    method Assign(other: EndpointUri) returns (ok: bool)
      requires Valid() && other.Valid() && protos == other.protos
      modifies this
      ensures Valid()
      ensures ok <==> this != other && old(other.Proto() != PROTO_NONE && other.Host() != [])
      ensures ok ==> CopyOf(other)
      ensures this == other ==> invalid == ALL_PARTS
      ensures this != other ==> (IsEqual(other) <==> other.Copyable())
      ensures other.Copyable() ==> ok && service == other.service
    {
      hide Decimal, NulFree, CStr;
      Clear(Full);
      Invalidate(Full);
      PartByPart(invalid);
      ok := SetProto(other.Proto());
      if !ok {
        return;
      }
      CStrIsNulFree(other.host);
      ok := SetHost(other.Host());
      if !ok {
        return;
      }
      ok := CopyRest(other);
      CopyEqualsIff(other);
    }

    /** The parts that are copied after protocol and host; none of them can fail then. */
    method CopyRest(other: EndpointUri) returns (ok: bool)
      requires Valid() && other.Valid() && this != other && protos == other.protos
      requires PartProto !in invalid && proto == other.Proto()
      requires PartHost !in invalid && host == other.Host()
      modifies this`invalid, this`port, this`service, this`path, this`query
      ensures Valid() && ok && CopyOf(other)
    {
      hide Decimal, CStr;
      ok := SetPort(other.Port());
      if !ok {
        return;
      }
      SetPath(OrEmpty(other.Path()));
      SetEncodedQuery(OrEmpty(other.Query()));
      forall p | p in invalid
        ensures p in {PartPort}
      {
        assert p in ALL_PARTS by {
          PartByPart({p});
        }
      }
    }

    predicate Verify(subset: Subset)
      reads this
    {
      if subset == Resource then
        PartPath !in invalid && PartQuery !in invalid
      else
        && invalid == {}
        && service != []
        && proto in protos
        && !(port < 0 && protos[proto].defaultPort < 0)
        && (!protos[proto].pathSupported ==> path == [] && query == [])
    }

    /** Of the checks made on a full URI, only the one on path support can fail once all parts are valid. */
    lemma {:induction false} VerifyIff()
      requires Valid()
      ensures Verify(Full) <==>
              invalid == {} && (protos[proto].pathSupported || (path == [] && query == []))
    {
    }

    /** Scheme, host and port, when all are valid. */
    ghost function AuthorityText(): seq<Byte>
      requires Valid() && proto in protos
      reads this
    {
      WriteAuthority(protos[proto].scheme, CStr(host), port)
    }

    /** The part before path and query. */
    method FormatAuthority() returns (dst: seq<Byte>)
      requires Valid() && Verify(Full)
      ensures dst == AuthorityText()
    {
      hide Decimal, CStr, GoodMap;
      dst := protos[proto].scheme;
      dst := dst + SEPARATOR;
      dst := dst + CStr(host);
      if Port() >= 0 {
        dst := dst + [COLON];
        dst := dst + Decimal(Port());
      }
    }

    /** format_endpoint_uri: a verified URI can be formatted exactly when its path has no NUL. */
    method Format(subset: Subset) returns (ok: bool, dst: seq<Byte>)
      requires Valid()
      ensures ok <==>
              && Verify(subset) && NulFree(path)
              && (subset == Resource ==> path != [] || query != [])
      ensures ok && subset == Full ==> dst == AuthorityText() + ResourceText(path, query)
      ensures ok && subset == Resource ==> dst == ResourceText(path, query)
    {
      hide Decimal, CStr, GoodMap, WriteAuthority;
      dst := [];
      if !Verify(subset) {
        return false, dst;
      }
      if subset == Full {
        dst := FormatAuthority();
      }
      if subset == Resource {
        if Path().None? && Query().None? {
          return false, dst;
        }
      }
      ghost var authority := dst;
      var encoded := [];
      if Path().Some? {
        ok, encoded := PctEncode(path, NonPath);
        dst := dst + encoded;
        if !ok {
          return;
        }
      }
      assert Encode(path, NonPath) == Some(encoded);
      if Query().Some? {
        dst := dst + [QUESTION];
        dst := dst + CStr(query);
      }
      assert ResourceText(path, query) == encoded + if query == [] then [] else [QUESTION] + CStr(query);
      assert dst == authority + ResourceText(path, query);
      ok := true;
    }
  }

  /** Verification does not look for NULs in the path, so it can pass where formatting fails. */
  method VerifiedButUnformattable(protos: map<Protocol, Attrs>, p: Protocol) returns (verified: bool, formatted: bool)
    requires GoodMap(protos) && p in protos && protos[p].pathSupported
    ensures verified && !formatted
  {
    var u := new EndpointUri(protos);
    var ok := u.SetProto(p);
    ok := u.SetHost(['h' as int]);
    ok := u.SetPort(1);
    u.SetPath(['/' as int, 0]);
    PartByPart(u.invalid);
    assert u.invalid == {};
    verified := u.Verify(Full);
    var dst;
    formatted, dst := u.Format(Full);
    assert u.path[1] == 0;
  }
}

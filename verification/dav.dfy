/**
 * The WebDAV client of dav.js: the address of a key and the request
 * `doCall` prepares for it (method, headers, credentials flag, and the
 * choice between the `http` and `https` modules).
 */
module DavClient {
  import opened Wrappers
  import opened Values
  import opened Escaping

  /** The transport module a request goes through. */
  datatype Transport = Http | Https

  /**
   * The request of `doCall`: the parsed address with `method`, the headers
   * `Authorization` and (optionally) `Content-Length`, the `fields` flag
   * `withCredentials`, and the module that sends it.
   */
  datatype Request = Request(
    address: string,
    verb: string,
    authorization: string,
    contentLength: Option<Value>,
    withCredentials: string,
    transport: Transport)

  /** `value.length` of the value a request carries: a string's or an array's length, else its `length` property. */
  function LengthOf(v: Value): (r: Value)
    requires v != Null
    ensures v.Str? ==> r.Num? && |v.s| <= r.n <= 2 * |v.s|
    ensures v.Str? && (forall j :: 0 <= j < |v.s| ==> v.s[j] as int < 0x1_0000) ==> r == Num(|v.s|)
    ensures v.Arr? ==> r == Num(|v.elems|)
    ensures v.Obj? ==> r == Property(v, "length")
  {
    match v
    case Str(s) => Num(Utf16Length(s))
    case Arr(xs) => Num(|xs|)
    case _ => Property(v, "length")
  }

  /** The module chosen for a parsed protocol. */
  function TransportFor(protocol: string): (t: Transport)
    ensures t == Https <==> protocol == "https:"
  {
    if protocol == "https:" then Https else Http
  }

  /** The `dav` object's configuration. */
  class Dav {
    const storageAddress: string
    const bearerToken: string

    constructor (storageAddress: string, bearerToken: string)
      ensures this.storageAddress == storageAddress && this.bearerToken == bearerToken
    {
      this.storageAddress := storageAddress;
      this.bearerToken := bearerToken;
    }

    /** `keyToAddress`: the storage address followed by the escaped key. */
    method KeyToAddress(key: string) returns (address: string)
      ensures address == storageAddress + Escaped(key)
      ensures |address| >= |storageAddress| && address[..|storageAddress|] == storageAddress
      ensures Unescaped(address[|storageAddress|..]) == key
    {
      var name := EscapeKey(key);
      address := storageAddress + name;
      assert address[|storageAddress|..] == name;
      UnescapeEscaped(key);
    }

    /**
     * The request `doCall(method, key, value, …)` sends. `protocol` is
     * what `url.parse` reads off the address.
     */
    method Prepare(verb: string, key: string, value: Value, protocol: string) returns (req: Request)
      ensures req.address == storageAddress + Escaped(key) && req.verb == verb
      ensures req.authorization == "Bearer " + bearerToken
      ensures req.contentLength.Some? <==> Truthy(value)
      ensures req.contentLength.Some? ==> value != Null && req.contentLength.value == LengthOf(value)
      ensures req.withCredentials == "true"
      ensures req.transport == Https <==> protocol == "https:"
    {
      var address := KeyToAddress(key);
      req := Request(address, verb, "Bearer " + bearerToken, None, "", Http);
      if Truthy(value) {
        req := req.(contentLength := Some(LengthOf(value)));
      }
      req := req.(withCredentials := "true");
      req := req.(transport := if protocol == "https:" then Https else Http);
    }

    /** `dav.get`: a GET without a body. */
    method Get(key: string, protocol: string) returns (req: Request)
      ensures req.verb == "GET" && req.address == storageAddress + Escaped(key)
      ensures req.contentLength.None?
      ensures req.transport == TransportFor(protocol)
    {
      req := Prepare("GET", key, Null, protocol);
    }

    /** `dav.set`: a PUT of the value, with its length when it is truthy. */
    method Set(key: string, value: Value, protocol: string) returns (req: Request)
      ensures req.verb == "PUT" && req.address == storageAddress + Escaped(key)
      ensures req.contentLength.Some? <==> Truthy(value)
      ensures req.transport == TransportFor(protocol)
    {
      req := Prepare("PUT", key, value, protocol);
    }

    /** `dav.remove`: a DELETE without a body. */
    method Remove(key: string, protocol: string) returns (req: Request)
      ensures req.verb == "DELETE" && req.address == storageAddress + Escaped(key)
      ensures req.contentLength.None?
      ensures req.transport == TransportFor(protocol)
    {
      req := Prepare("DELETE", key, Null, protocol);
    }
  }

  /** Requests for distinct keys go to distinct addresses. */
  lemma DistinctKeysDistinctRequests(r1: Request, r2: Request, base: string, k1: string, k2: string)
    requires r1.address == base + Escaped(k1) && r2.address == base + Escaped(k2)
    requires k1 != k2
    ensures r1.address != r2.address
  {
    if r1.address == r2.address {
      AddressInjective(base, k1, k2);
    }
  }
}

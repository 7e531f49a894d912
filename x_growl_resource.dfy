/**
 * `URI::XGrowlResource`: the `x-growl-resource://<unique-id>` URIs with
 * which a GNTP packet refers to a resource block sent with it. The generic
 * URI machinery it inherits from is reduced to what this class reads: the
 * scheme, the host, and the host pattern of the URI parser, which is a
 * parameter.
 */
module XGrowlResource {
  import opened Results
  import opened Wire

  /** What constructing or changing one of these URIs raises. */
  datatype Error =
    | InvalidComponentError(message: Bytes)   // URI::InvalidComponentError
    | InvalidURIError(message: Bytes)         // URI::InvalidURIError, from parsing

  /** The host pattern of the URI parser (`parser.regexp[:HOST]`). */
  type HostPattern = Bytes -> bool

  const SCHEME: Bytes := A("x-growl-resource")

  /** A character of `[\w-]`: an ASCII letter, digit, underscore or dash. */
  predicate IsIdByte(b: byte)
  {
    IsDigit(b) || 65 <= b <= 90 || 97 <= b <= 122 || b == 95 || b == 45
  }

  /** `UNIQUE_ID_REGEXP =~ s`, the pattern `\A[\w-]+\z` anchored at both ends of the string. */
  predicate IsUniqueId(s: Bytes)
  {
    |s| > 0 && forall i :: 0 <= i < |s| ==> IsIdByte(s[i])
  }

  /** `check_unique_id`: `nil` and the empty string pass; anything else must match both patterns. */
  function CheckUniqueId(v: Option<Bytes>, hostOk: HostPattern): (r: Result<(), Error>)
    ensures r.Ok? <==> v.None? || v.value == [] || (hostOk(v.value) && IsUniqueId(v.value))
    ensures r.Err? ==> r.error == InvalidComponentError(A("bad component (expected unique ID component): ") + v.value)
  {
    if v.None? || v.value == [] then Ok(())
    else if !hostOk(v.value) || !IsUniqueId(v.value) then
      Err(InvalidComponentError(A("bad component (expected unique ID component): ") + v.value))
    else Ok(())
  }

  /**
   * The unique id `initialize` leaves in the new URI: the host, when it is
   * a unique id and, with argument checking on, also passes `unique_id=`.
   */
  function InitialUniqueId(host: Option<Bytes>, argCheck: bool, hostOk: HostPattern): (r: Result<Bytes, Error>)
    ensures r.Ok? <==> host.Some? && IsUniqueId(host.value) && (argCheck ==> hostOk(host.value))
    ensures r.Ok? ==> r.value == host.value
    ensures host.None? || !IsUniqueId(host.value) ==>
      r == Err(InvalidComponentError(A("unrecognized opaque part for x-growl-resource URL: ")
                                     + (if host.None? then [] else host.value)))
  {
    if host.None? || !IsUniqueId(host.value) then
      Err(InvalidComponentError(A("unrecognized opaque part for x-growl-resource URL: ")
                                + (if host.None? then [] else host.value)))
    else if argCheck then
      var checked := CheckUniqueId(host, hostOk);
      if checked.Err? then Err(checked.error) else Ok(host.value)
    else Ok(host.value)
  }

  /** The host `build` hands to the constructor: the unique id when one is given, else the empty string. */
  function BuildHost(uniqueId: Option<Bytes>): Bytes
  {
    if uniqueId.Some? then uniqueId.value else []
  }

  /** The text of a URI: `"#{scheme}://#{unique_id}"`, a `nil` id printing as nothing. */
  function Render(scheme: Bytes, uniqueId: Option<Bytes>): (s: Bytes)
    ensures |s| >= |scheme| + 3 && s[..|scheme|] == scheme && s[|scheme|..|scheme| + 3] == A("://")
    ensures uniqueId.Some? ==> s[|scheme| + 3..] == uniqueId.value
    ensures uniqueId.None? ==> |s| == |scheme| + 3
  {
    scheme + A("://") + (if uniqueId.Some? then uniqueId.value else [])
  }

  /**
   * How the URI parser takes `<scheme>://<host>` apart when the host holds
   * no character that would start a user, port, path, query or fragment;
   * other text is not of this form.
   */
  function Components(s: Bytes): (r: Option<(Bytes, Bytes)>)
    ensures r.Some? ==> s == r.value.0 + A("://") + r.value.1
  {
    var sep := A("://");
    match Find(s, sep, 0)
    case None => None
    case Some(k) =>
      var host := s[k + 3..];
      if forall i :: 0 <= i < |host| ==> IsIdByte(host[i]) then
        assert s == s[..k] + sep + host;
        Some((s[..k], host))
      else None
  }

  /** The URI text of a unique id, parsed again, gives back the scheme and that id. */
  lemma {:induction false} ComponentsOfRender(id: Bytes)
    requires IsUniqueId(id)
    ensures Components(Render(SCHEME, Some(id))) == Some((SCHEME, id))
  {
    var s := Render(SCHEME, Some(id));
    var sep := A("://");
    assert s == SCHEME + sep + id;
    assert sep == [58, 47, 47];
    assert forall i :: 0 <= i < |SCHEME| ==> SCHEME[i] != sep[0] by {
      assert SCHEME == [120, 45, 103, 114, 111, 119, 108, 45, 114, 101, 115, 111, 117, 114, 99, 101];
    }
    FindAfter(SCHEME, sep, id);
    assert s[19..] == id;
  }

  class Resource {
    /** `@scheme` */
    var scheme: Bytes
    /** `@host` */
    var host: Option<Bytes>
    /** `@unique_id` */
    var uniqueId: Option<Bytes>
    const hostOk: HostPattern

    constructor Init(scheme: Bytes, host: Option<Bytes>, uniqueId: Option<Bytes>, hostOk: HostPattern)
      ensures this.scheme == scheme && this.host == host && this.uniqueId == uniqueId && this.hostOk == hostOk
    {
      this.scheme := scheme;
      this.host := host;
      this.uniqueId := uniqueId;
      this.hostOk := hostOk;
    }

    /**
     * `new`: refuses a host that is not a unique id and otherwise records
     * it as the unique id, through `unique_id=` when the arguments are checked.
     */
    static method New(scheme: Bytes, host: Option<Bytes>, argCheck: bool, hostOk: HostPattern)
      returns (r: Result<Resource, Error>)
      ensures var u := InitialUniqueId(host, argCheck, hostOk);
        (r.Ok? <==> u.Ok?) && (r.Err? ==> r.error == u.error)
      ensures r.Ok? ==> fresh(r.value) && r.value.scheme == scheme && r.value.host == host
                        && r.value.uniqueId == host && r.value.hostOk == hostOk
    {
      var res := new Resource.Init(scheme, host, None, hostOk);
      if host.None? || !IsUniqueId(host.value) {
        return Err(InvalidComponentError(A("unrecognized opaque part for x-growl-resource URL: ")
                                         + (if host.None? then [] else host.value)));
      }
      if argCheck {
        var checked := res.SetUniqueId(host);
        if checked.Err? {
          return Err(checked.error);
        }
      } else {
        res.uniqueId := host;
      }
      return Ok(res);
    }

    /**
     * `build`: the host is the given unique id, or the empty string, which
     * `new` then refuses; the components hash of the URI library supplies
     * `scheme`.
     */
    static method Build(scheme: Bytes, uniqueId: Option<Bytes>, hostOk: HostPattern) returns (r: Result<Resource, Error>)
      ensures r.Ok? <==> uniqueId.Some? && IsUniqueId(uniqueId.value) && hostOk(uniqueId.value)
      ensures r.Ok? ==> fresh(r.value) && r.value.scheme == scheme && r.value.uniqueId == uniqueId
      ensures r.Ok? ==> r.value.ToS() == Render(scheme, uniqueId)
    {
      r := New(scheme, Some(BuildHost(uniqueId)), true, hostOk);
    }

    /**
     * `URI("x-growl-resource://...")`: splits the text, then constructs with
     * the parser as the last argument, which, being truthy, makes `initialize`
     * check the id through `unique_id=`.
     */
    static method Parse(s: Bytes, hostOk: HostPattern) returns (r: Result<Resource, Error>)
      ensures Components(s).None? ==> r == Err(InvalidURIError(A("bad URI(is not URI?): ") + s))
      ensures Components(s).Some? ==> var id := Components(s).value.1;
        (r.Ok? <==> IsUniqueId(id) && hostOk(id)) && (r.Err? ==> r.error == InitialUniqueId(Some(id), true, hostOk).error)
      ensures r.Ok? ==> Components(s).Some? && fresh(r.value) && r.value.uniqueId == Some(Components(s).value.1)
                        && r.value.ToS() == s
    {
      var parts := Components(s);
      if parts.None? {
        return Err(InvalidURIError(A("bad URI(is not URI?): ") + s));
      }
      r := New(parts.value.0, Some(parts.value.1), true, hostOk);
    }

    /** `to_s` */
    function ToS(): Bytes
      reads this
    {
      Render(scheme, uniqueId)
    }

    /** `unique_id=`: checks the new id and stores it only when the check passes. */
    method SetUniqueId(v: Option<Bytes>) returns (r: Result<(), Error>)
      modifies this
      ensures r == CheckUniqueId(v, hostOk)
      ensures uniqueId == if r.Ok? then v else old(uniqueId)
      ensures scheme == old(scheme) && host == old(host)
    {
      r := CheckUniqueId(v, hostOk);
      if r.Ok? {
        uniqueId := v;
      }
    }
  }

  /**
   * Printing a URI built from a unique id gives `x-growl-resource://` followed
   * by the id; parsing that gives the id back, and the checked construction
   * `URI()` makes accepts it exactly when the host pattern does.
   */
  lemma RenderParses(id: Bytes, hostOk: HostPattern)
    requires IsUniqueId(id)
    ensures Render(SCHEME, Some(id)) == A("x-growl-resource://") + id
    ensures Components(Render(SCHEME, Some(id))) == Some((SCHEME, id))
    ensures InitialUniqueId(Some(id), true, hostOk) == Ok(id) <==> hostOk(id)
  {
    assert A("x-growl-resource://") == SCHEME + A("://");
    ComponentsOfRender(id);
  }

  /** `build` without a unique id, or with an empty one, always fails. */
  lemma BuildWithoutIdFails(hostOk: HostPattern)
    ensures InitialUniqueId(Some(BuildHost(None)), true, hostOk).Err?
    ensures InitialUniqueId(Some(BuildHost(Some([]))), true, hostOk).Err?
  {
  }
}

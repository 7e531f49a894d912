/**
 * The response side of `Growl::GNTP`: `receive` splits a server response into
 * its information line and header lines, coerces each header value with
 * `parse_header`, and either returns the headers (`-OK`, `-CALLBACK`) or
 * raises the error class `ERROR_MAP` gives for the `Error-Code` header.
 * `Time.parse` and `URI()` are not modelled: their results are kept as the
 * tagged text they were given.
 */
module GntpResponse {
  import opened Results
  import opened Wire
  import opened OrderedMaps
  import Gntp
  import XGrowlResource

  /** A coerced header value. */
  datatype Value =
    | Nil               // nil: `(null)`, or no value at all
    | Bool(b: bool)     // true / false
    | Int(i: int)       // `to_i`
    | Str(s: Bytes)     // the text as received
    | Time(raw: Bytes)  // `Time.parse` of the text
    | Uri(raw: Bytes)   // `URI()` of the text

  /** The headers hash: keys in first-insertion order; a line with no key has the key nil. */
  type Headers = Entries<Option<Bytes>, Value>

  /** The `Growl::GNTP::Error` subclasses of `ERROR_MAP`. */
  datatype Condition =
    | TimedOut | NetworkFailure
    | InvalidRequest | UnknownProtocol | UnknownProtocolVersion | RequiredHeaderMissing
    | NotAuthorized | UnknownApplication | UnknownNotification | AlreadyProcessed | NotificationDisabled
    | InternalServerError

  /** What `receive` raises. */
  datatype Failure =
    | InvalidInfoLine(info: Option<Bytes>)                               // Growl::GNTP::Error
    | NilValue(header: Bytes)                 // a library call on the missing value of a typed header
    | Refused(condition: Condition, description: Value, headers: Headers)  // the ERROR_MAP class
    | UnknownErrorCode(code: Value)           // NoMethodError: ERROR_MAP has no class for the code

  /** `ERROR_MAP` */
  function ErrorMap(code: int): Option<Condition>
  {
    match code
    case 200 => Some(TimedOut)
    case 201 => Some(NetworkFailure)
    case 300 => Some(InvalidRequest)
    case 301 => Some(UnknownProtocol)
    case 302 => Some(UnknownProtocolVersion)
    case 303 => Some(RequiredHeaderMissing)
    case 400 => Some(NotAuthorized)
    case 401 => Some(UnknownApplication)
    case 402 => Some(UnknownNotification)
    case 403 => Some(AlreadyProcessed)
    case 404 => Some(NotificationDisabled)
    case 500 => Some(InternalServerError)
    case _ => None
  }

  /** The error code of each condition. */
  function ErrorCode(c: Condition): int
  {
    match c
    case TimedOut => 200
    case NetworkFailure => 201
    case InvalidRequest => 300
    case UnknownProtocol => 301
    case UnknownProtocolVersion => 302
    case RequiredHeaderMissing => 303
    case NotAuthorized => 400
    case UnknownApplication => 401
    case UnknownNotification => 402
    case AlreadyProcessed => 403
    case NotificationDisabled => 404
    case InternalServerError => 500
  }

  /** `ERROR_MAP` maps a code to a condition exactly when that is the condition's code. */
  lemma ErrorMapInverse(code: int, c: Condition)
    ensures ErrorMap(code) == Some(c) <==> ErrorCode(c) == code
  {
  }

  /** The twelve codes of `ERROR_MAP`: the 2xx codes are transport failures, 3xx bad requests, 4xx refusals, 5xx the server. */
  lemma ErrorMapCodes(code: int)
    ensures ErrorMap(code).Some? <==> code in [200, 201, 300, 301, 302, 303, 400, 401, 402, 403, 404, 500]
  {
  }

  // ---------------------------------------------------------------------------
  // parse_header

  const NULL: Bytes := A("(null)")
  const ERROR_CODE: Bytes := A("Error-Code")
  const ERROR_DESCRIPTION: Bytes := A("Error-Description")
  const CALLBACK_TIMESTAMP: Bytes := A("Notification-Callback-Timestamp")

  const BOOLEAN_HEADERS: seq<Bytes> := [A("Notification-Enabled"), A("Notification-Sticky")]

  const INTEGER_HEADERS: seq<Bytes> :=
    [ERROR_CODE, A("Notifications-Count"), A("Notifications-Priority"), A("Subscriber-Port"), A("Subscription-TTL")]

  /**
   * The text headers, with `Origin-Sofware-Name` spelt as `parse_header` spells
   * it, so a received `Origin-Software-Name` falls through to the last branch.
   */
  const TEXT_HEADERS: seq<Bytes> :=
    [A("Application-Name"), ERROR_DESCRIPTION, A("Notification-Callback-Context"),
     A("Notification-Callback-Context-Type"), A("Notification-Callback-Target"), A("Notification-Coalescing-ID"),
     A("Notification-Display-Name"), A("Notification-ID"), A("Notification-Name"), A("Notification-Text"),
     A("Notification-Title"), A("Origin-Machine-Name"), A("Origin-Platform-Name"), A("Origin-Platform-Version"),
     A("Origin-Software-Version"), A("Origin-Sofware-Name"), A("Subscriber-ID"), A("Subscriber-Name")]

  const URI_HEADERS: seq<Bytes> := [A("Application-Icon"), A("Notification-Icon")]

  /** The headers whose coercion is a method call that a missing value makes raise. */
  predicate RaisesOnNil(key: Bytes)
  {
    key == CALLBACK_TIMESTAMP || key in TEXT_HEADERS || key in URI_HEADERS
  }

  /** No boolean header raises on a missing value; names of equal length differ at the index given. */
  lemma BooleanHeadersDisjoint()
    ensures forall k :: k in BOOLEAN_HEADERS ==> !RaisesOnNil(k)
  {
    assert A("Origin-Machine-Name")[0] != A("Notification-Sticky")[0];
    assert A("Origin-Sofware-Name")[0] != A("Notification-Sticky")[0];
    assert A("Origin-Platform-Name")[0] != A("Notification-Enabled")[0];
  }

  /** No integer header is boolean or raises on a missing value. */
  lemma IntegerHeadersDisjoint()
    ensures forall k :: k in INTEGER_HEADERS ==> !RaisesOnNil(k) && k !in BOOLEAN_HEADERS
  {
    CountHeaderDisjoint();
    PortHeaderDisjoint();
    TtlHeaderDisjoint();
  }

  lemma CountHeaderDisjoint()
    ensures !RaisesOnNil(A("Notifications-Count")) && A("Notifications-Count") !in BOOLEAN_HEADERS
  {
    assert A("Notification-Sticky")[12] != A("Notifications-Count")[12];
    assert A("Origin-Machine-Name")[0] != A("Notifications-Count")[0];
    assert A("Origin-Sofware-Name")[0] != A("Notifications-Count")[0];
  }

  lemma PortHeaderDisjoint()
    ensures !RaisesOnNil(A("Subscriber-Port"))
  {
    assert A("Notification-ID")[0] != A("Subscriber-Port")[0];
    assert A("Subscriber-Name")[11] != A("Subscriber-Port")[11];
  }

  lemma TtlHeaderDisjoint()
    ensures !RaisesOnNil(A("Subscription-TTL"))
  {
    assert A("Application-Name")[0] != A("Subscription-TTL")[0];
    assert A("Application-Icon")[0] != A("Subscription-TTL")[0];
  }

  /** `value =~ /^(w1|w2)$/i`: some line of the value is one of the words, ignoring ASCII case. */
  predicate MatchesWord(value: Bytes, w1: Bytes, w2: Bytes)
  {
    var lines := LinesOf(value);
    exists i :: 0 <= i < |lines| && (Lower(lines[i]) == w1 || Lower(lines[i]) == w2)
  }

  /** The Enabled and Sticky coercion: yes or true, no or false, otherwise the text itself. */
  function BooleanValue(value: Bytes): (v: Value)
    ensures v == Bool(true) <==> MatchesWord(value, A("true"), A("yes"))
    ensures v == Bool(false) <==> !MatchesWord(value, A("true"), A("yes")) && MatchesWord(value, A("false"), A("no"))
    ensures !v.Bool? ==> v == Str(value)
  {
    if MatchesWord(value, A("true"), A("yes")) then Bool(true)
    else if MatchesWord(value, A("false"), A("no")) then Bool(false)
    else Str(value)
  }

  /** `[header, value]` with the value as it is. */
  function Raw(value: Option<Bytes>): Value
  {
    if value.Some? then Str(value.value) else Nil
  }

  /**
   * `parse_header`: `(null)` is nil for every header; then the value is
   * coerced by the kind of header; a missing value raises for the headers
   * coerced by a method call and is nil otherwise (`nil.to_i` is 0).
   */
  function ParseHeader(key: Option<Bytes>, value: Option<Bytes>): (r: Result<(Option<Bytes>, Value), Failure>)
    ensures r.Ok? ==> r.value.0 == key
    ensures r.Err? <==> value.None? && key.Some? && RaisesOnNil(key.value)
    ensures r.Err? ==> r.error == NilValue(key.value)
  {
    BooleanHeadersDisjoint();
    IntegerHeadersDisjoint();
    if value == Some(NULL) then Ok((key, Nil))
    else if key.None? then Ok((key, Raw(value)))
    else if key.value in BOOLEAN_HEADERS then Ok((key, if value.None? then Nil else BooleanValue(value.value)))
    else if key.value == CALLBACK_TIMESTAMP then
      if value.None? then Err(NilValue(key.value)) else Ok((key, Time(value.value)))
    else if key.value in INTEGER_HEADERS then Ok((key, Int(if value.None? then 0 else ToI(value.value))))
    else if key.value in TEXT_HEADERS then
      if value.None? then Err(NilValue(key.value)) else Ok((key, Str(value.value)))
    else if key.value in URI_HEADERS then
      if value.None? then Err(NilValue(key.value)) else Ok((key, Uri(value.value)))
    else Ok((key, Raw(value)))
  }

  /** `(null)` is nil whatever the header. */
  lemma NullIsNil(key: Option<Bytes>)
    ensures ParseHeader(key, Some(NULL)) == Ok((key, Nil))
  {
  }

  /** An integer header reads back the number the decimal text spells. */
  lemma IntegerReadsBack(key: Bytes, i: int)
    requires key in INTEGER_HEADERS
    ensures ParseHeader(Some(key), Some(IntToDecimal(i))) == Ok((Some(key), Int(i)))
  {
    ToIOfDecimal(i);
    var t := IntToDecimal(i);
    assert t != NULL by {
      if i < 0 {
        assert t[0] == 45;
      } else {
        assert IsDigit(t[0]);
      }
    }
    BooleanHeadersDisjoint();
    IntegerHeadersDisjoint();
  }

  /** A line holding only one of the words matches it. */
  lemma WordMatches(w: Bytes, w1: Bytes, w2: Bytes)
    requires forall i :: 0 <= i < |w| ==> w[i] != 10
    requires Lower(w) == w1 || Lower(w) == w2
    ensures MatchesWord(w, w1, w2)
  {
    SplitOnAbsent(w, [10]);
    assert LinesOf(w)[0] == w;
  }

  /** A boolean header whose value is one line reading true or yes, in any case, reads back as true. */
  lemma TrueReadsBack(key: Bytes, value: Bytes)
    requires key in BOOLEAN_HEADERS && value != NULL && 10 !in value
    requires Lower(value) == A("true") || Lower(value) == A("yes")
    ensures ParseHeader(Some(key), Some(value)) == Ok((Some(key), Bool(true)))
  {
    WordMatches(value, A("true"), A("yes"));
  }

  /** What the client sends as `Notification-Enabled: true` and `Notification-Sticky: True` reads back as true. */
  lemma FlagsReadBack()
    ensures ParseHeader(Some(A(Gntp.NOTIFICATION_ENABLED)), Some(A("true"))) == Ok((Some(A(Gntp.NOTIFICATION_ENABLED)), Bool(true)))
    ensures ParseHeader(Some(A(Gntp.NOTIFICATION_STICKY)), Some(A("True"))) == Ok((Some(A(Gntp.NOTIFICATION_STICKY)), Bool(true)))
  {
    EnabledReadsBack();
    StickyReadsBack();
  }

  lemma EnabledReadsBack()
    ensures ParseHeader(Some(A(Gntp.NOTIFICATION_ENABLED)), Some(A("true"))) == Ok((Some(A(Gntp.NOTIFICATION_ENABLED)), Bool(true)))
  {
    assert A("true") != NULL;
    TrueReadsBack(A(Gntp.NOTIFICATION_ENABLED), A("true"));
  }

  lemma StickyReadsBack()
    ensures ParseHeader(Some(A(Gntp.NOTIFICATION_STICKY)), Some(A("True"))) == Ok((Some(A(Gntp.NOTIFICATION_STICKY)), Bool(true)))
  {
    assert A("True") != NULL;
    assert Lower(A("True")) == A("true");
    TrueReadsBack(A(Gntp.NOTIFICATION_STICKY), A("True"));
  }

  /**
   * A `Notification-Icon` holding a resource reference reads back as the URI
   * of that `x-growl-resource`, whose unique id is the resource's identifier.
   */
  lemma ResourceIconReadsBack(id: Bytes, hostOk: XGrowlResource.HostPattern)
    requires XGrowlResource.IsUniqueId(id)
    ensures var raw := XGrowlResource.Render(XGrowlResource.SCHEME, Some(id));
      && ParseHeader(Some(A(Gntp.NOTIFICATION_ICON)), Some(Gntp.ResourceReference(id)))
         == Ok((Some(A(Gntp.NOTIFICATION_ICON)), Uri(raw)))
      && XGrowlResource.Components(raw) == Some((XGrowlResource.SCHEME, id))
      && (XGrowlResource.InitialUniqueId(Some(id), true, hostOk) == Ok(id) <==> hostOk(id))
  {
    Gntp.ResourceReferenceIsUri(id, hostOk);
    ResourceIconHeader(Gntp.ResourceReference(id));
  }

  /** A `Notification-Icon` value other than `(null)` is kept as URI text. */
  lemma ResourceIconHeader(r: Bytes)
    requires |r| > 0 && r[0] == 120
    ensures ParseHeader(Some(A(Gntp.NOTIFICATION_ICON)), Some(r)) == Ok((Some(A(Gntp.NOTIFICATION_ICON)), Uri(r)))
  {
    assert r != NULL;
    var k := A(Gntp.NOTIFICATION_ICON);
    assert k[0] != A("Error-Description")[0] && k[13] != A("Notification-Name")[13] && k[13] != A("Notification-Text")[13];
    assert k !in BOOLEAN_HEADERS && k != CALLBACK_TIMESTAMP && k !in INTEGER_HEADERS && k !in TEXT_HEADERS;
    assert k in URI_HEADERS;
  }


  // ---------------------------------------------------------------------------
  // The header lines

  /** `key, value = header.split ': ', 2`: before the first `": "`, and after it if there is one. */
  function SplitHeader(line: Bytes): (Option<Bytes>, Option<Bytes>)
  {
    var parts := SplitOnce(line, A(": "));
    (if |parts| > 0 then Some(parts[0]) else None, if |parts| > 1 then Some(parts[1]) else None)
  }

  /** A header line as the client writes it splits back into its name and value. */
  lemma SplitHeaderOfRender(h: Gntp.Header)
    requires h.Field? && 58 !in A(h.name)
    ensures SplitHeader(Gntp.RenderHeader(h)) == (Some(A(h.name)), Some(h.value))
  {
    var sep := A(": ");
    SplitOnAfter(A(h.name), sep, h.value);
  }

  /** `parse_header key, value` of one line. */
  function ParseLine(line: Bytes): (r: Result<(Option<Bytes>, Value), Failure>)
    ensures r.Err? ==> r.error.NilValue?
  {
    ParseHeader(SplitHeader(line).0, SplitHeader(line).1)
  }

  /** `flat_map` with a parser that may raise: the results in order, or the error of the first line that raises. */
  function Collect(lines: seq<Bytes>, parse: Bytes -> Result<(Option<Bytes>, Value), Failure>)
    : (r: Result<seq<(Option<Bytes>, Value)>, Failure>)
    ensures r.Ok? ==> |r.value| == |lines|
    ensures r.Err? ==> exists i :: 0 <= i < |lines| && parse(lines[i]) == Err(r.error)
  {
    if |lines| == 0 then Ok([])
    else
      var init :- Collect(lines[..|lines| - 1], parse);
      var pair :- parse(lines[|lines| - 1]);
      Ok(init + [pair])
  }

  /** The lines are collected exactly when each of them parses, and then into the results of the lines. */
  lemma {:induction false} CollectOk(lines: seq<Bytes>, parse: Bytes -> Result<(Option<Bytes>, Value), Failure>)
    ensures Collect(lines, parse).Ok? <==> forall i :: 0 <= i < |lines| ==> parse(lines[i]).Ok?
    ensures Collect(lines, parse).Ok? ==>
      forall i :: 0 <= i < |lines| ==> Collect(lines, parse).value[i] == parse(lines[i]).value
  {
    if |lines| > 0 {
      var n := |lines|;
      var init := lines[..n - 1];
      CollectOk(init, parse);
      assert forall i :: 0 <= i < n - 1 ==> lines[i] == init[i];
    }
  }

  /** The coerced pairs of the header lines, in order; the first line that raises decides the error. */
  function ParseHeaders(lines: seq<Bytes>): (r: Result<seq<(Option<Bytes>, Value)>, Failure>)
    ensures r.Ok? ==> |r.value| == |lines|
    ensures r.Err? ==> r.error.NilValue?
  {
    Collect(lines, ParseLine)
  }

  /** The header lines parse exactly when each of them does, and then into the pairs of the lines. */
  lemma ParseHeadersOk(lines: seq<Bytes>)
    ensures ParseHeaders(lines).Ok? <==> forall i :: 0 <= i < |lines| ==> ParseLine(lines[i]).Ok?
    ensures ParseHeaders(lines).Ok? ==> forall i :: 0 <= i < |lines| ==> ParseHeaders(lines).value[i] == ParseLine(lines[i]).value
  {
    CollectOk(lines, ParseLine);
  }

  /** `Hash[*pairs]`: a repeated key keeps its first place and takes its last value. */
  function HashOf(pairs: seq<(Option<Bytes>, Value)>): Headers
  {
    if |pairs| == 0 then []
    else
      var last := pairs[|pairs| - 1];
      Put(HashOf(pairs[..|pairs| - 1]), last.0, last.1)
  }

  /** The value of the last pair with the key, if any. */
  function LastValue(pairs: seq<(Option<Bytes>, Value)>, k: Option<Bytes>): Option<Value>
  {
    if |pairs| == 0 then None
    else if pairs[|pairs| - 1].0 == k then Some(pairs[|pairs| - 1].1)
    else LastValue(pairs[..|pairs| - 1], k)
  }

  /** The headers hash holds each key once, with the value of its last line. */
  lemma {:induction false} HashOfGet(pairs: seq<(Option<Bytes>, Value)>, k: Option<Bytes>)
    ensures Get(HashOf(pairs), k) == LastValue(pairs, k)
    ensures DistinctKeys(HashOf(pairs))
  {
    if |pairs| > 0 {
      var last := pairs[|pairs| - 1];
      HashOfGet(pairs[..|pairs| - 1], k);
      GetPut(HashOf(pairs[..|pairs| - 1]), last.0, last.1, k);
      PutDistinct(HashOf(pairs[..|pairs| - 1]), last.0, last.1);
    }
  }

  /** Lines with distinct keys make a hash of exactly those pairs, in order. */
  lemma {:induction false} HashOfDistinct(pairs: seq<(Option<Bytes>, Value)>)
    requires DistinctKeys(pairs)
    ensures HashOf(pairs) == pairs
  {
    if |pairs| > 0 {
      var init := pairs[..|pairs| - 1];
      assert DistinctKeys(init) by {
        assert forall i :: 0 <= i < |init| ==> init[i] == pairs[i];
      }
      HashOfDistinct(init);
      assert forall i :: 0 <= i < |init| ==> init[i].0 != pairs[|pairs| - 1].0;
      PutAbsent(init, pairs[|pairs| - 1].0, pairs[|pairs| - 1].1);
      assert pairs == init + [pairs[|pairs| - 1]];
    }
  }

  /** `headers[name]`: nil when the name is not a key. */
  function Lookup(headers: Headers, name: Bytes): Value
  {
    var v := Get(headers, Some(name));
    if v.Some? then v.value else Nil
  }

  // ---------------------------------------------------------------------------
  // The information line

  /** A character of `[\d.]`. */
  predicate IsVersionByte(b: byte)
  {
    IsDigit(b) || b == 46
  }

  /** Text of `[\d.]+`. */
  predicate IsVersion(s: Bytes)
  {
    |s| > 0 && forall i :: 0 <= i < |s| ==> IsVersionByte(s[i])
  }

  /** Text of `\S+`. */
  predicate IsToken(s: Bytes)
  {
    |s| > 0 && forall i :: 0 <= i < |s| ==> !IsSpace(s[i])
  }

  /** `GNTP/<version> <status> <encryption>` */
  function InfoLine(version: Bytes, status: Bytes, encryption: Bytes): Bytes
  {
    A("GNTP/") + (version + SPACE + status + SPACE + encryption)
  }

  /**
   * `line =~ %r%^GNTP/([\d.]+) (\S+) (\S+)$%` for one line: none of the
   * three groups holds a space, so the line after `GNTP/` must split at
   * spaces into exactly three fields of their kinds.
   */
  function InfoFields(line: Bytes): (r: Option<(Bytes, Bytes, Bytes)>)
    ensures r.Some? ==> IsVersion(r.value.0) && IsToken(r.value.1) && IsToken(r.value.2)
                        && line == InfoLine(r.value.0, r.value.1, r.value.2)
  {
    if |line| < 5 || line[..5] != A("GNTP/") then None
    else
      var fields := SplitOn(line[5..], SPACE);
      if |fields| == 3 && IsVersion(fields[0]) && IsToken(fields[1]) && IsToken(fields[2]) then
        InfoLineOfFields(line);
        Some((fields[0], fields[1], fields[2]))
      else None
  }

  /** Text that splits at spaces into three fields is those fields joined by single spaces. */
  lemma ThreeFields(s: Bytes)
    requires |SplitOn(s, SPACE)| == 3
    ensures var f := SplitOn(s, SPACE); s == f[0] + SPACE + f[1] + SPACE + f[2]
  {
    var f := SplitOn(s, SPACE);
    SplitOnJoin(s, SPACE);
    assert f == [f[0], f[1], f[2]];
    JoinThree(f[0], f[1], f[2], SPACE);
  }

  /** A line of `GNTP/` and three space-separated fields is the information line of those fields. */
  lemma InfoLineOfFields(line: Bytes)
    requires |line| >= 5 && line[..5] == A("GNTP/") && |SplitOn(line[5..], SPACE)| == 3
    ensures var f := SplitOn(line[5..], SPACE); line == InfoLine(f[0], f[1], f[2])
  {
    ThreeFields(line[5..]);
    assert line == line[..5] + line[5..];
  }

  /** An information line of the three kinds of field matches, with those fields. */
  lemma InfoFieldsOfLine(version: Bytes, status: Bytes, encryption: Bytes)
    requires IsVersion(version) && IsToken(status) && IsToken(encryption)
    ensures InfoFields(InfoLine(version, status, encryption)) == Some((version, status, encryption))
  {
    var line := InfoLine(version, status, encryption);
    var rest := version + SPACE + status + SPACE + encryption;
    assert line[..5] == A("GNTP/") && line[5..] == rest;
    FieldsSplit(version, status, encryption);
  }

  /** The three fields joined by spaces split back into those fields. */
  lemma FieldsSplit(version: Bytes, status: Bytes, encryption: Bytes)
    requires IsVersion(version) && IsToken(status) && IsToken(encryption)
    ensures SplitOn(version + SPACE + status + SPACE + encryption, SPACE) == [version, status, encryption]
  {
    forall i | 0 <= i < |version| ensures version[i] != SPACE[0] {
      assert IsVersionByte(version[i]);
    }
    forall i | 0 <= i < |status| ensures status[i] != SPACE[0] {
      assert !IsSpace(status[i]);
    }
    forall i | 0 <= i < |encryption| ensures encryption[i] != SPACE[0] {
      assert !IsSpace(encryption[i]);
    }
    assert version + SPACE + status + SPACE + encryption == version + SPACE + (status + SPACE + encryption);
    SplitOnAfter(version, SPACE, status + SPACE + encryption);
    SplitOnAfter(status, SPACE, encryption);
    SplitOnAbsent(encryption, SPACE);
  }

  /** `info =~ ...` on the whole information line: the first of its lines that matches. */
  function FirstInfo(lines: seq<Bytes>): (r: Option<(Bytes, Bytes, Bytes)>)
    ensures r.Some? <==> exists i :: 0 <= i < |lines| && InfoFields(lines[i]).Some?
    ensures r.Some? ==> exists i :: 0 <= i < |lines| && InfoFields(lines[i]) == r
  {
    if |lines| == 0 then None
    else if InfoFields(lines[0]).Some? then InfoFields(lines[0])
    else
      var r := FirstInfo(lines[1..]);
      assert forall i :: 1 <= i < |lines| ==> lines[i] == lines[1..][i - 1];
      r
  }

  /** The version and status of the information line, if it matches. */
  function MatchInfo(info: Option<Bytes>): Option<(Bytes, Bytes, Bytes)>
  {
    if info.None? then None else FirstInfo(LinesOf(info.value))
  }

  /** An information line holds no line feed and no carriage return. */
  lemma InfoLineBytes(version: Bytes, status: Bytes, encryption: Bytes)
    requires IsVersion(version) && IsToken(status) && IsToken(encryption)
    ensures var line := InfoLine(version, status, encryption); 10 !in line && 13 !in line
  {
    var line := InfoLine(version, status, encryption);
    forall i | 0 <= i < |line| ensures line[i] != 10 && line[i] != 13 {
      var rest := version + SPACE + status + SPACE + encryption;
      assert line == A("GNTP/") + rest;
      if i >= 5 {
        assert line[i] == rest[i - 5];
        var j := i - 5;
        if j < |version| {
          assert rest[j] == version[j] && IsVersionByte(version[j]);
        } else if j == |version| {
          assert rest[j] == 32;
        } else if j - |version| - 1 < |status| {
          assert rest[j] == status[j - |version| - 1] && !IsSpace(status[j - |version| - 1]);
        } else if j - |version| - 1 == |status| {
          assert rest[j] == 32;
        } else {
          assert rest[j] == encryption[j - |version| - |status| - 2] && !IsSpace(encryption[j - |version| - |status| - 2]);
        }
      }
    }
  }

  /** An information line matches on its own. */
  lemma MatchInfoOfLine(version: Bytes, status: Bytes, encryption: Bytes)
    requires IsVersion(version) && IsToken(status) && IsToken(encryption)
    ensures MatchInfo(Some(InfoLine(version, status, encryption))) == Some((version, status, encryption))
  {
    InfoFieldsOfLine(version, status, encryption);
    InfoLineBytes(version, status, encryption);
    SplitOnAbsent(InfoLine(version, status, encryption), [10]);
  }

  // ---------------------------------------------------------------------------
  // receive

  /** The status lines after which `receive` returns the headers. */
  predicate IsSuccess(status: Bytes)
  {
    status == A("-OK") || status == A("-CALLBACK")
  }

  /** The lines of a response: `packet.strip.split "\r\n"`. */
  function ResponseLines(packet: Bytes): seq<Bytes>
  {
    RubySplit(Strip(packet), CRLF)
  }

  /**
   * `receive`: the first line must match the information-line pattern;
   * the other lines become the headers hash; a success status returns it,
   * any other raises the class of its `Error-Code`, with its
   * `Error-Description` and the headers.
   */
  function Receive(packet: Bytes): (r: Result<Headers, Failure>)
    ensures var lines := ResponseLines(packet);
      var info := if |lines| == 0 then None else Some(lines[0]);
      && (r.Err? && r.error.InvalidInfoLine? <==> MatchInfo(info).None?)
      && (r.Ok? <==> MatchInfo(info).Some? && ParseHeaders(lines[1..]).Ok? && IsSuccess(MatchInfo(info).value.1))
      && (r.Ok? || (r.Err? && r.error.Refused?) ==>
            ParseHeaders(lines[1..]).Ok? && var h := HashOf(ParseHeaders(lines[1..]).value);
            (r.Ok? ==> r.value == h) && (r.Err? ==> r.error.headers == h))
    ensures r.Err? && r.error.Refused? ==>
      Lookup(r.error.headers, ERROR_CODE) == Int(ErrorCode(r.error.condition))
      && r.error.description == Lookup(r.error.headers, ERROR_DESCRIPTION)
  {
    var lines := ResponseLines(packet);
    var info := if |lines| == 0 then None else Some(lines[0]);
    var fields := MatchInfo(info);
    if fields.None? then Err(InvalidInfoLine(info))
    else
      var pairs :- ParseHeaders(lines[1..]);
      var headers := HashOf(pairs);
      if IsSuccess(fields.value.1) then Ok(headers)
      else
        var code := Lookup(headers, ERROR_CODE);
        if code.Int? && ErrorMap(code.i).Some? then
          ErrorMapInverse(code.i, ErrorMap(code.i).value);
          Err(Refused(ErrorMap(code.i).value, Lookup(headers, ERROR_DESCRIPTION), headers))
        else Err(UnknownErrorCode(code))
  }

  /**
   * A response of non-empty lines without carriage returns, joined by CRLF
   * and surrounded by whitespace, splits into exactly those lines.
   */
  lemma ResponseLinesOf(w: Bytes, lines: seq<Bytes>, w': Bytes)
    requires forall i :: 0 <= i < |w| ==> IsStripSpace(w[i])
    requires forall i :: 0 <= i < |w'| ==> IsStripSpace(w'[i])
    requires |lines| > 0 && forall k :: 0 <= k < |lines| ==> |lines[k]| > 0 && 13 !in lines[k]
    requires !IsStripSpace(lines[0][0]) && !IsStripSpace(Last(lines[|lines| - 1]))
    ensures ResponseLines(w + Join(lines, CRLF) + w') == lines
  {
    var text := Join(lines, CRLF);
    JoinEnds(lines, CRLF);
    StripAround(w, text, w');
    SplitOnOfJoin(lines, CRLF);
  }

  function Last(s: Bytes): byte
    requires |s| > 0
  {
    s[|s| - 1]
  }

  /** The joined lines start with the first line's first byte and end with the last line's last byte. */
  lemma {:induction false} JoinEnds(lines: seq<Bytes>, sep: Bytes)
    requires |lines| > 0 && forall k :: 0 <= k < |lines| ==> |lines[k]| > 0
    ensures var j := Join(lines, sep); |j| > 0 && j[0] == lines[0][0] && j[|j| - 1] == Last(lines[|lines| - 1])
  {
    if |lines| > 1 {
      assert forall k :: 0 <= k < |lines| - 1 ==> lines[1..][k] == lines[k + 1];
      JoinEnds(lines[1..], sep);
    }
  }

  /**
   * A success response of one header line, surrounded by whitespace,
   * returns the hash of that one header.
   */
  lemma {:induction false} ReceiveSingle(w: Bytes, version: Bytes, status: Bytes, encryption: Bytes, line: Bytes, w': Bytes)
    requires forall i :: 0 <= i < |w| ==> IsStripSpace(w[i])
    requires forall i :: 0 <= i < |w'| ==> IsStripSpace(w'[i])
    requires IsVersion(version) && IsToken(status) && IsToken(encryption) && IsSuccess(status)
    requires |line| > 0 && 13 !in line && !IsStripSpace(Last(line))
    requires ParseLine(line).Ok?
    ensures Receive(w + InfoLine(version, status, encryption) + CRLF + line + w') == Ok([ParseLine(line).value])
  {
    var info := InfoLine(version, status, encryption);
    var packet := w + info + CRLF + line + w';
    SingleResponseLines(w, version, status, encryption, line, w');
    assert ResponseLines(packet)[1..] == [line];
    MatchInfoOfLine(version, status, encryption);
    OneLine(line);
    var one := [ParseLine(line).value];
    assert |one[..0]| == 0;
    assert HashOf(one) == Put(HashOf(one[..0]), one[0].0, one[0].1);
  }

  /** A response of an information line and one header line, surrounded by whitespace, splits into those two lines. */
  lemma SingleResponseLines(w: Bytes, version: Bytes, status: Bytes, encryption: Bytes, line: Bytes, w': Bytes)
    requires forall i :: 0 <= i < |w| ==> IsStripSpace(w[i])
    requires forall i :: 0 <= i < |w'| ==> IsStripSpace(w'[i])
    requires IsVersion(version) && IsToken(status) && IsToken(encryption)
    requires |line| > 0 && 13 !in line && !IsStripSpace(Last(line))
    ensures ResponseLines(w + InfoLine(version, status, encryption) + CRLF + line + w')
            == [InfoLine(version, status, encryption), line]
  {
    var info := InfoLine(version, status, encryption);
    InfoLineBytes(version, status, encryption);
    assert info[0] == 71;
    JoinCons(info, [line], CRLF);
    assert w + info + CRLF + line + w' == w + Join([info, line], CRLF) + w';
    ResponseLinesOf(w, [info, line], w');
  }

  /** The success response to a registration (one header) reads as that header. */
  lemma ReceiveOk(packet: Bytes)
    requires packet == CRLF + InfoLine(A("1.0"), A("-OK"), A("NONE")) + CRLF
                       + (A("Response-Action") + A(": ") + A("REGISTER")) + (CRLF + CRLF + CRLF)
    ensures Receive(packet) == Ok([(Some(A("Response-Action")), Str(A("REGISTER")))])
  {
    var action := A("Response-Action") + A(": ") + A("REGISTER");
    ActionBytes();
    OkInfoFields();
    StripSpaceCrlf();
    ActionLine();
    ReceiveSingle(CRLF, A("1.0"), A("-OK"), A("NONE"), action, CRLF + CRLF + CRLF);
  }

  lemma OkInfoFields()
    ensures IsVersion(A("1.0")) && IsToken(A("-OK")) && IsToken(A("NONE")) && IsSuccess(A("-OK"))
  {
  }

  lemma StripSpaceCrlf()
    ensures forall i :: 0 <= i < |CRLF| ==> IsStripSpace(CRLF[i])
    ensures var w := CRLF + CRLF + CRLF; forall i :: 0 <= i < |w| ==> IsStripSpace(w[i])
  {
  }

  lemma ActionBytes()
    ensures var action := A("Response-Action") + A(": ") + A("REGISTER");
      |action| > 0 && 13 !in action && Last(action) == 82
  {
  }

  /**
   * A response with an error status whose `Error-Code` header is in
   * `ERROR_MAP` raises that condition with its `Error-Description` and the
   * headers hash.
   */
  lemma ReceiveRefusal(w: Bytes, version: Bytes, status: Bytes, encryption: Bytes, lines: seq<Bytes>, w': Bytes,
                       pairs: seq<(Option<Bytes>, Value)>, code: int)
    requires forall i :: 0 <= i < |w| ==> IsStripSpace(w[i])
    requires forall i :: 0 <= i < |w'| ==> IsStripSpace(w'[i])
    requires IsVersion(version) && IsToken(status) && IsToken(encryption) && !IsSuccess(status)
    requires |lines| > 0 && forall k :: 0 <= k < |lines| ==> |lines[k]| > 0 && 13 !in lines[k]
    requires !IsStripSpace(Last(lines[|lines| - 1]))
    requires ParseHeaders(lines) == Ok(pairs)
    requires Lookup(HashOf(pairs), ERROR_CODE) == Int(code) && ErrorMap(code).Some?
    ensures Receive(w + Join([InfoLine(version, status, encryption)] + lines, CRLF) + w')
            == Err(Refused(ErrorMap(code).value, Lookup(HashOf(pairs), ERROR_DESCRIPTION), HashOf(pairs)))
  {
    ReceiveLines(w, version, status, encryption, lines, w');
    MatchInfoOfLine(version, status, encryption);
    var packet := w + Join([InfoLine(version, status, encryption)] + lines, CRLF) + w';
    assert ResponseLines(packet)[1..] == lines;
  }

  /** The information line and header lines of a response, joined by CRLF and surrounded by whitespace, split back apart. */
  lemma ReceiveLines(w: Bytes, version: Bytes, status: Bytes, encryption: Bytes, lines: seq<Bytes>, w': Bytes)
    requires forall i :: 0 <= i < |w| ==> IsStripSpace(w[i])
    requires forall i :: 0 <= i < |w'| ==> IsStripSpace(w'[i])
    requires IsVersion(version) && IsToken(status) && IsToken(encryption)
    requires |lines| > 0 && forall k :: 0 <= k < |lines| ==> |lines[k]| > 0 && 13 !in lines[k]
    requires !IsStripSpace(Last(lines[|lines| - 1]))
    ensures ResponseLines(w + Join([InfoLine(version, status, encryption)] + lines, CRLF) + w')
            == [InfoLine(version, status, encryption)] + lines
  {
    var info := InfoLine(version, status, encryption);
    var all := [info] + lines;
    InfoLineBytes(version, status, encryption);
    assert info[0] == 71;
    assert forall k :: 0 <= k < |all| ==> |all[k]| > 0 && 13 !in all[k] by {
      assert forall k :: 1 <= k < |all| ==> all[k] == lines[k - 1];
    }
    assert all[|all| - 1] == lines[|lines| - 1];
    ResponseLinesOf(w, all, w');
  }

  /** The header lines of the error responses of the tests: no action, no description, then the code. */
  function ErrorHeaderLines(code: nat): seq<Bytes>
  {
    [A("Response-Action") + A(": ") + NULL, ERROR_DESCRIPTION + A(": ") + NULL, ERROR_CODE + A(": ") + NatToDecimal(code)]
  }

  /** The headers those lines give. */
  function ErrorHeaders(code: nat): seq<(Option<Bytes>, Value)>
  {
    [(Some(A("Response-Action")), Nil), (Some(ERROR_DESCRIPTION), Nil), (Some(ERROR_CODE), Int(code))]
  }

  lemma ErrorHeaderLinesParse(code: nat)
    ensures ParseHeaders(ErrorHeaderLines(code)) == Ok(ErrorHeaders(code))
  {
    NullHeaderLinesParse();
    CodeLineParses(code);
    var l := ErrorHeaderLines(code);
    var h := ErrorHeaders(code);
    ThreeLines(l[0], l[1], l[2], h[0], h[1], h[2]);
  }

  lemma NullHeaderLinesParse()
    ensures ParseLine(A("Response-Action") + A(": ") + NULL) == Ok((Some(A("Response-Action")), Nil))
    ensures ParseLine(ERROR_DESCRIPTION + A(": ") + NULL) == Ok((Some(ERROR_DESCRIPTION), Nil))
  {
    NullActionParses();
    NullDescriptionParses();
  }

  lemma NullActionParses()
    ensures ParseLine(A("Response-Action") + A(": ") + NULL) == Ok((Some(A("Response-Action")), Nil))
  {
    NullLineParses(A("Response-Action"));
  }

  lemma NullDescriptionParses()
    ensures ParseLine(ERROR_DESCRIPTION + A(": ") + NULL) == Ok((Some(ERROR_DESCRIPTION), Nil))
  {
    NullLineParses(ERROR_DESCRIPTION);
  }

  /** Three header lines that each parse give their three pairs in order. */
  lemma ThreeLines(l0: Bytes, l1: Bytes, l2: Bytes, p0: (Option<Bytes>, Value), p1: (Option<Bytes>, Value),
                   p2: (Option<Bytes>, Value))
    requires ParseLine(l0) == Ok(p0) && ParseLine(l1) == Ok(p1) && ParseLine(l2) == Ok(p2)
    ensures ParseHeaders([l0, l1, l2]) == Ok([p0, p1, p2])
  {
    OneLine(l0);
    var two: seq<Bytes> := [l0, l1];
    assert two[..|two| - 1] == [l0] && two[|two| - 1] == l1;
    assert [p0] + [p1] == [p0, p1];
    assert ParseHeaders(two) == Ok([p0, p1]);
    var three: seq<Bytes> := [l0, l1, l2];
    assert three[..|three| - 1] == two && three[|three| - 1] == l2;
    assert [p0, p1] + [p2] == [p0, p1, p2];
  }

  /** A line `<name>: (null)` is the name with nil. */
  lemma NullLineParses(name: Bytes)
    requires 58 !in name
    ensures ParseLine(name + A(": ") + NULL) == Ok((Some(name), Nil))
  {
    SplitOnAfter(name, A(": "), NULL);
    NullIsNil(Some(name));
  }

  lemma CodeLineParses(code: nat)
    ensures ParseLine(ERROR_CODE + A(": ") + NatToDecimal(code)) == Ok((Some(ERROR_CODE), Int(code)))
  {
    SplitOnAfter(ERROR_CODE, A(": "), NatToDecimal(code));
    IntegerReadsBack(ERROR_CODE, code);
  }

  lemma ErrorHeaderLinesBytes(code: nat)
    ensures var lines := ErrorHeaderLines(code);
      forall k :: 0 <= k < |lines| ==> |lines[k]| > 0 && 13 !in lines[k]
    ensures !IsStripSpace(Last(ErrorHeaderLines(code)[2]))
  {
    var digits := NatToDecimal(code);
    assert 13 !in A("Response-Action") && 13 !in A(": ") && 13 !in NULL;
    assert 13 !in ERROR_DESCRIPTION && 13 !in ERROR_CODE;
    assert forall i :: 0 <= i < |digits| ==> digits[i] != 13;
    assert Last(ErrorHeaderLines(code)[2]) == digits[|digits| - 1];
  }

  lemma ErrorHeadersHash(code: nat)
    ensures HashOf(ErrorHeaders(code)) == ErrorHeaders(code)
    ensures Lookup(ErrorHeaders(code), ERROR_CODE) == Int(code)
    ensures Lookup(ErrorHeaders(code), ERROR_DESCRIPTION) == Nil
  {
    assert |A("Response-Action")| != |ERROR_CODE| && |ERROR_DESCRIPTION| != |ERROR_CODE|;
    assert |A("Response-Action")| != |ERROR_DESCRIPTION|;
    HashOfDistinct(ErrorHeaders(code));
    var h := ErrorHeaders(code);
    assert h[1..][1..] == [h[2]];
    assert Get(h, Some(ERROR_CODE)) == Get(h[1..], Some(ERROR_CODE)) == Get(h[1..][1..], Some(ERROR_CODE));
    assert Get(h, Some(ERROR_DESCRIPTION)) == Get(h[1..], Some(ERROR_DESCRIPTION));
  }

  /**
   * The error responses of the tests: for every code of `ERROR_MAP`, a
   * `-ERROR` response whose `Error-Code` is that code raises its condition,
   * with a nil description and the three headers.
   */
  lemma ReceiveErrorCode(code: nat, packet: Bytes)
    requires ErrorMap(code).Some?
    requires packet == Join([InfoLine(A("1.0"), A("-ERROR"), A("NONE"))] + ErrorHeaderLines(code), CRLF)
                       + (CRLF + CRLF + CRLF)
    ensures Receive(packet) == Err(Refused(ErrorMap(code).value, Nil, ErrorHeaders(code)))
  {
    ErrorInfoFields();
    StripSpaceCrlf();
    ErrorHeaderLinesBytes(code);
    ErrorHeaderLinesParse(code);
    ErrorHeadersHash(code);
    assert packet == [] + Join([InfoLine(A("1.0"), A("-ERROR"), A("NONE"))] + ErrorHeaderLines(code), CRLF)
                     + (CRLF + CRLF + CRLF);
    ReceiveRefusal([], A("1.0"), A("-ERROR"), A("NONE"), ErrorHeaderLines(code), CRLF + CRLF + CRLF,
                   ErrorHeaders(code), code);
  }

  lemma ErrorInfoFields()
    ensures IsVersion(A("1.0")) && IsToken(A("-ERROR")) && IsToken(A("NONE")) && !IsSuccess(A("-ERROR"))
  {
  }

  /** `Response-Action: REGISTER` is an untyped header and keeps its text. */
  lemma ActionLine()
    ensures ParseLine(A("Response-Action") + A(": ") + A("REGISTER")) == Ok((Some(A("Response-Action")), Str(A("REGISTER"))))
  {
    SplitOnAfter(A("Response-Action"), A(": "), A("REGISTER"));
    var k := A("Response-Action");
    assert k[0] != A("Notification-ID")[0] && k[0] != A("Subscriber-Name")[0] && k[0] != A("Subscriber-Port")[0];
  }

  lemma OneLine(line: Bytes)
    requires ParseLine(line).Ok?
    ensures ParseHeaders([line]) == Ok([ParseLine(line).value])
  {
    var one: seq<Bytes> := [line];
    assert |one[..0]| == 0;
    assert ParseHeaders(one[..0]) == Ok([]);
    assert [] + [ParseLine(line).value] == [ParseLine(line).value];
  }
}

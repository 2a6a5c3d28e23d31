/**
 * The request bridge's own string and map logic: the `Cookie` header codec,
 * the `SERVER_NAME` derived from the `Host` header, and the decision to send
 * the session cookie back in a `Set-Cookie` header.
 *
 * The superglobal cookie array that the parser merges into is an explicit
 * argument and result here.
 */
module ReactKernel {
  import opened Wrappers
  import opened PhpStrings
  import opened PhpArrays

  // ---------------------------------------------------------------------
  // Serialising cookies

  /** The `key=value` texts of the entries, in array order. */
  function CookieSegments(data: PhpArray): (segments: seq<string>)
    ensures |segments| == |data|
  {
    seq(|data|, i requires 0 <= i < |data| => data[i].0 + "=" + data[i].1)
  }

  /**
   * What `serializeCookiesHeader` returns: the `key=value` texts joined by
   * "; ". It is empty exactly for the empty array.
   */
  function CookieHeader(data: PhpArray): (header: string)
    ensures header == "" <==> data == []
  {
    var segments := CookieSegments(data);
    if segments == [] then Implode("; ", segments)
    else
      assert segments[0] == data[0].0 + "=" + data[0].1;
      ImplodeStartsWith("; ", segments);
      Implode("; ", segments)
  }

  /** `serializeCookiesHeader`: one `key=value` text per entry, collected in a loop, then imploded. */
  method SerializeCookiesHeader(data: PhpArray) returns (header: string)
    ensures header == CookieHeader(data)
  {
    var concat: seq<string> := [];
    for i := 0 to |data|
      invariant |concat| == i
      invariant forall j :: 0 <= j < i ==> concat[j] == data[j].0 + "=" + data[j].1
    {
      var (key, value) := data[i];
      concat := concat + [key + "=" + value];
    }
    assert concat == CookieSegments(data);
    header := Implode("; ", concat);
  }

  // ---------------------------------------------------------------------
  // Parsing the Cookie header

  /** The cookie a header segment sets: only a segment with exactly one `=` sets one. */
  function CookieOf(segment: string): (cookie: Option<(string, string)>)
    ensures cookie.Some? ==> segment == cookie.value.0 + "=" + cookie.value.1
    ensures cookie.Some? ==> '=' !in cookie.value.0 && '=' !in cookie.value.1
  {
    var parts := Explode("=", segment);
    ExplodeNoSeparator("=", segment);
    if |parts| == 2 then
      assert parts[1..] == [parts[1]];
      assert Implode("=", parts) == parts[0] + "=" + parts[1];
      Some((parts[0], parts[1]))
    else None
  }

  /** One header segment applied to the array: its cookie, if it sets one, is assigned. */
  function ApplySegment(jar: PhpArray, segment: string): PhpArray
  {
    match CookieOf(segment)
    case Some((key, value)) => Assign(jar, key, value)
    case None => jar
  }

  /** Applying a segment changes only the key it sets, and that key takes the segment's value. */
  lemma ApplySegmentGet(jar: PhpArray, segment: string)
    ensures forall key :: Get(ApplySegment(jar, segment), key) ==
              if CookieOf(segment).Some? && CookieOf(segment).value.0 == key then Some(CookieOf(segment).value.1)
              else Get(jar, key)
  {
    if CookieOf(segment).Some? {
      AssignGet(jar, CookieOf(segment).value.0, CookieOf(segment).value.1);
    }
  }

  /** The header segments in order, each assigning its cookie (if any) into the array. */
  function MergeSegments(jar: PhpArray, segments: seq<string>): PhpArray
    decreases |segments|
  {
    if segments == [] then jar
    else MergeSegments(ApplySegment(jar, segments[0]), segments[1..])
  }

  /** What `deserializeCookiesHeader` returns: the cookie array after every segment of the header was applied. */
  function CookiesFromHeader(header: string, jar: PhpArray): (merged: PhpArray)
    ensures header == "" ==> merged == jar
  {
    var segments := Explode("; ", header);
    assert header == "" ==> segments == [""] && CookieOf("") == None && segments[1..] == [];
    MergeSegments(jar, segments)
  }

  /** `deserializeCookiesHeader`: the header cut at "; ", each segment cut at `=`, assigned in order into the array. */
  method DeserializeCookiesHeader(cookieHeader: string, cookies: PhpArray) returns (merged: PhpArray)
    ensures merged == CookiesFromHeader(cookieHeader, cookies)
  {
    var headerCookies := Explode("; ", cookieHeader);
    merged := cookies;
    for i := 0 to |headerCookies|
      invariant MergeSegments(merged, headerCookies[i..]) == CookiesFromHeader(cookieHeader, cookies)
    {
      assert headerCookies[i..][1..] == headerCookies[i + 1..];
      var cookie := Explode("=", headerCookies[i]);
      if |cookie| == 2 {
        merged := Assign(merged, cookie[0], cookie[1]);
      }
    }
  }

  /** A key that no segment sets keeps the value (or absence) it had before. */
  lemma {:induction false} MergeKeepsUnmentioned(jar: PhpArray, segments: seq<string>, key: string)
    requires forall i :: 0 <= i < |segments| && CookieOf(segments[i]).Some? ==> CookieOf(segments[i]).value.0 != key
    ensures Get(MergeSegments(jar, segments), key) == Get(jar, key)
    decreases |segments|
  {
    if segments != [] {
      var next := ApplySegment(jar, segments[0]);
      ApplySegmentGet(jar, segments[0]);
      assert forall i :: 1 <= i < |segments| ==> segments[1..][i - 1] == segments[i];
      MergeKeepsUnmentioned(next, segments[1..], key);
    }
  }

  /** The last segment that sets a key decides its value: a later duplicate overwrites an earlier one. */
  lemma {:induction false} MergeLastWins(jar: PhpArray, segments: seq<string>, i: nat, key: string, value: string)
    requires i < |segments| && CookieOf(segments[i]) == Some((key, value))
    requires forall j :: i < j < |segments| && CookieOf(segments[j]).Some? ==> CookieOf(segments[j]).value.0 != key
    ensures Get(MergeSegments(jar, segments), key) == Some(value)
    decreases |segments|
  {
    var next := ApplySegment(jar, segments[0]);
    assert forall j :: 1 <= j < |segments| ==> segments[1..][j - 1] == segments[j];
    if i == 0 {
      ApplySegmentGet(jar, segments[0]);
      MergeKeepsUnmentioned(next, segments[1..], key);
    } else {
      MergeLastWins(next, segments[1..], i - 1, key, value);
    }
  }

  /** Parsing into an array without repeated keys gives one without repeated keys. */
  lemma {:induction false} MergeKeyed(jar: PhpArray, segments: seq<string>)
    requires Keyed(jar)
    ensures Keyed(MergeSegments(jar, segments))
    decreases |segments|
  {
    if segments != [] {
      var next := ApplySegment(jar, segments[0]);
      if CookieOf(segments[0]).Some? {
        AssignKeyed(jar, CookieOf(segments[0]).value.0, CookieOf(segments[0]).value.1);
      }
      MergeKeyed(next, segments[1..]);
    }
  }

  /** Neither `=` nor `;` occurs in any key or value. */
  predicate PlainCookies(data: PhpArray)
  {
    forall i :: 0 <= i < |data| ==>
      '=' !in data[i].0 && '=' !in data[i].1 && ';' !in data[i].0 && ';' !in data[i].1
  }

  /** A `key=value` text built from plain text parses back into its cookie. */
  lemma CookieOfPair(key: string, value: string)
    requires '=' !in key && '=' !in value
    ensures CookieOf(key + "=" + value) == Some((key, value))
  {
    ExplodeLeading("=", key, value);
    ExplodeUncut("=", value);
  }

  /** Applying the segments of new plain cookies appends them, in order, to the array. */
  lemma {:induction false} MergeAppends(prefix: PhpArray, data: PhpArray)
    requires Keyed(prefix + data) && PlainCookies(data)
    ensures MergeSegments(prefix, CookieSegments(data)) == prefix + data
    decreases |data|
  {
    if data != [] {
      var (key, value) := data[0];
      var segments := CookieSegments(data);
      CookieOfPair(key, value);
      assert !HasKey(prefix, key) by {
        forall i | 0 <= i < |prefix| ensures prefix[i].0 != key {
          assert (prefix + data)[i] == prefix[i] && (prefix + data)[|prefix|] == data[0];
        }
      }
      assert segments[1..] == CookieSegments(data[1..]);
      assert (prefix + [data[0]]) + data[1..] == prefix + data;
      MergeAppends(prefix + [data[0]], data[1..]);
    } else {
      assert prefix + [] == prefix;
    }
  }

  /**
   * Round trip: parsing the serialised header of an array without repeated
   * keys, whose keys and values contain neither `=` nor `;`, into an empty
   * cookie array gives the same array back, entries in the same order.
   */
  lemma CookieRoundTrip(data: PhpArray)
    requires Keyed(data) && PlainCookies(data)
    ensures CookiesFromHeader(CookieHeader(data), []) == data
  {
    var segments := CookieSegments(data);
    if data != [] {
      forall i | 0 <= i < |segments| ensures ';' !in segments[i] {
        assert segments[i] == data[i].0 + "=" + data[i].1;
      }
      ExplodeImplode("; ", segments);
      assert [] + data == data;
      MergeAppends([], data);
    }
  }

  // ---------------------------------------------------------------------
  // SERVER_NAME

  /** The characters of rtrim's list ':0..9': the colon and the ten digits. */
  const PortChars: set<char> := {':'} + DigitChars

  /**
   * `SERVER_NAME` as the bridge computes it, `rtrim(Host, ':0..9')`: the Host
   * header without any trailing colon or digit. The result is a prefix of the
   * header, it never ends in a colon or a digit, and everything removed is
   * one of those.
   */
  function ServerName(host: string): (name: string)
    ensures name <= host
    ensures name == [] || name[|name| - 1] !in PortChars
    ensures forall i :: |name| <= i < |host| ==> host[i] in PortChars
  {
    RTrim(host, PortChars)
  }

  /**
   * The trim does not stop at the port: a host name that ends in a digit
   * loses it too, so the bundle's default host with a port gives "127.0.0.".
   */
  lemma ServerNameCutsAddress()
    ensures ServerName("127.0.0.1:8080") == "127.0.0."
  {
    assert "127.0.0.1:8080" == "127.0.0." + "1:8080";
    RTrimUnique("127.0.0.1:8080", PortChars, "127.0.0.", "1:8080");
  }

  /**
   * The host name without its port: a trailing `:` followed only by digits
   * is removed, and nothing else.
   */
  function HostWithoutPort(host: string): (name: string)
    ensures name <= host
    ensures name == host || (host[|name|] == ':' && IsDigits(host[|name| + 1..]))
  {
    var trimmed := RTrim(host, DigitChars);
    if trimmed != [] && trimmed[|trimmed| - 1] == ':' then
      var name := trimmed[..|trimmed| - 1];
      assert forall i :: |name| + 1 <= i < |host| ==> host[i] in DigitChars;
      name
    else host
  }

  /** Whatever the host name, `name:port` gives back exactly `name`. */
  lemma HostWithoutPortStripsPort(name: string, port: string)
    requires IsDigits(port)
    ensures HostWithoutPort(name + ":" + port) == name
  {
    var kept := name + ":";
    assert name + ":" + port == kept + port;
    RTrimUnique(kept + port, DigitChars, kept, port);
    assert kept[..|kept| - 1] == name;
  }

  /** A host without a colon is left as it is. */
  lemma HostWithoutPortKeepsBareHost(host: string)
    requires ':' !in host
    ensures HostWithoutPort(host) == host
  {
    var trimmed := RTrim(host, DigitChars);
    if trimmed != [] {
      assert trimmed[|trimmed| - 1] == host[|trimmed| - 1];
    }
  }

  // ---------------------------------------------------------------------
  // Set-Cookie

  datatype SessionStatus = SessionDisabled | SessionNone | SessionActive

  /** The cookies the response must set: the session id, when a session is active and the request did not send one. */
  function SessionCookies(status: SessionStatus, cookies: PhpArray, sessionId: string): PhpArray
  {
    if status == SessionActive && !HasKey(cookies, "PHPSESSID") then [("PHPSESSID", sessionId)] else []
  }

  /**
   * The headers written back by `parseSfResponse`: `Set-Cookie` becomes
   * "PHPSESSID=<session id>" exactly when the session is active and the
   * request carried no PHPSESSID cookie; otherwise the headers are left as
   * they are. No other header changes.
   */
  function ResponseHeaders(headers: PhpArray, status: SessionStatus, cookies: PhpArray, sessionId: string): (r: PhpArray)
    ensures Get(r, "Set-Cookie")
         == if status == SessionActive && !HasKey(cookies, "PHPSESSID") then Some("PHPSESSID=" + sessionId)
            else Get(headers, "Set-Cookie")
    ensures !(status == SessionActive && !HasKey(cookies, "PHPSESSID")) ==> r == headers
    ensures forall name :: name != "Set-Cookie" ==> Get(r, name) == Get(headers, name)
  {
    var setCookies := SessionCookies(status, cookies, sessionId);
    if |setCookies| > 0 then
      assert CookieSegments(setCookies) == ["PHPSESSID" + "=" + sessionId];
      assert CookieHeader(setCookies) == "PHPSESSID=" + sessionId;
      AssignGet(headers, "Set-Cookie", CookieHeader(setCookies));
      Assign(headers, "Set-Cookie", CookieHeader(setCookies))
    else headers
  }
}

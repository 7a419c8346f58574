/** The pure parts of the object-store configuration
    (backend/api/minio_utils.py): reading the SSL flag, splitting the
    configured endpoint into host and port, and building public URLs. */
module MinioUtils {
  import opened Wrappers
  import opened Strings

  const DefaultSslFlag: string := "false"
  const SslPort: int := 443
  const PlainPort: int := 9000

  /** `MINIO_USE_SSL`: the variable's value, or "false" when unset, lower-cased
      and compared with "true", "1" and "yes". */
  function UseSsl(env: Option<string>): bool
  {
    Lower(env.GetOr(DefaultSslFlag)) in {"true", "1", "yes"}
  }

  lemma {:induction false} LowerIdempotent(s: string)
    ensures Lower(Lower(s)) == Lower(s)
  {
    forall i | 0 <= i < |s| ensures Lower(Lower(s))[i] == Lower(s)[i] {
    }
  }

  /** The flag ignores letter case. */
  lemma UseSslIgnoresCase(s: string)
    ensures UseSsl(Some(s)) == UseSsl(Some(Lower(s)))
  {
    LowerIdempotent(s);
  }

  /** The flag is off when the variable is unset. */
  lemma UseSslDefaultOff()
    ensures !UseSsl(None)
  {
    LowerOf("false", "false");
  }

  /** The accepted spellings switch the flag on in any letter case; other
      values switch it off. */
  lemma UseSslExamples()
    ensures UseSsl(Some("TRUE")) && UseSsl(Some("Yes"))
    ensures !UseSsl(Some("0"))
  {
    LowerOf("TRUE", "true");
    LowerOf("Yes", "yes");
    LowerOf("0", "0");
  }

  lemma LowerOf(s: string, t: string)
    requires |s| == |t| && forall i :: 0 <= i < |s| ==> LowerChar(s[i]) == t[i]
    ensures Lower(s) == t
  {
  }

  /** What `parse_endpoint` returns: `None` stands for `(None, None)`. */
  datatype Endpoint = Endpoint(host: string, port: int)

  /** `parse_endpoint`: `Err` is the `ValueError` that `int()` raises on a
      non-numeric port. */
  function ParseEndpoint(endpoint: Option<string>, useSsl: bool): (r: Result<Option<Endpoint>, string>)
    ensures endpoint == None || endpoint == Some("") ==> r == Ok(None)
    ensures r.Ok? && r.value.Some? ==> r.value.value.host != "" && ':' !in r.value.value.host
  {
    if endpoint.None? || endpoint.value == "" then Ok(None)
    else HostAndPort(Split(StripSchemes(endpoint.value), ':'), useSsl)
  }

  /** Every "http://" and then every "https://" removed. */
  function StripSchemes(endpoint: string): string
  {
    ReplaceAll(ReplaceAll(endpoint, "http://", ""), "https://", "")
  }

  /** Host from the first ':'-separated part ("localhost" when empty), port
      from the second when it is non-empty, otherwise the default port. */
  function HostAndPort(parts: seq<string>, useSsl: bool): (r: Result<Option<Endpoint>, string>)
    requires |parts| >= 1 && ':' !in parts[0]
    ensures r.Ok? ==> r.value.Some? && r.value.value.host != "" && ':' !in r.value.value.host
    ensures r.Ok? ==> r.value.value.host == (if parts[0] == "" then "localhost" else parts[0])
    ensures r.Err? <==> |parts| > 1 && parts[1] != "" && ParsePyInt(parts[1]).None?
    ensures r.Ok? && |parts| > 1 && parts[1] != "" ==> Some(r.value.value.port) == ParsePyInt(parts[1])
    ensures r.Ok? && (|parts| == 1 || parts[1] == "") ==>
      r.value.value.port == if useSsl then SslPort else PlainPort
  {
    var host := if parts[0] != "" then parts[0] else "localhost";
    var defaultPort := if useSsl then SslPort else PlainPort;
    if |parts| > 1 && parts[1] != "" then
      match ParsePyInt(parts[1])
      case Some(port) => Ok(Some(Endpoint(host, port)))
      case None => Err("invalid literal for int() with base 10")
    else Ok(Some(Endpoint(host, defaultPort)))
  }

  /** A string in which every ':' is followed by a character other than
      '/' contains neither "http://" nor "https://". */
  lemma NoSchemeMarker(s: string, pat: string)
    requires pat == "http://" || pat == "https://"
    requires forall k :: 0 <= k < |s| - 1 && s[k] == ':' ==> s[k + 1] != '/'
    ensures !Contains(s, pat)
  {
    var c := |pat| - 3;
    assert pat[c] == ':' && pat[c + 1] == '/';
    forall j | 0 <= j <= |s| ensures !OccursAt(s, pat, j) {
      if j + |pat| <= |s| {
        if s[j + c] == ':' {
          assert s[j..j + |pat|][c + 1] != pat[c + 1];
        } else {
          assert s[j..j + |pat|][c] != pat[c];
        }
      }
    }
  }

  lemma ReplaceAllAbsent(s: string, pat: string, rep: string)
    requires pat != "" && !Contains(s, pat)
    ensures ReplaceAll(s, pat, rep) == s
  {
    assert Find(s, pat) == -1;
  }

  lemma ReplaceAllAtStart(s: string, pat: string)
    requires pat != "" && !Contains(s, pat)
    ensures ReplaceAll(pat + s, pat, "") == s
  {
    var t := pat + s;
    assert OccursAt(t, pat, 0);
    assert Find(t, pat) == 0;
    assert t[|pat|..] == s;
    ReplaceAllAbsent(s, pat, "");
  }

  /** Removing "http://" and then "https://" from a scheme prefix followed
      by text free of both markers leaves exactly that text. */
  lemma StripSchemeMarkers(scheme: string, rest: string)
    requires scheme in {"", "http://", "https://"}
    requires forall k :: 0 <= k < |rest| - 1 && rest[k] == ':' ==> rest[k + 1] != '/'
    ensures StripSchemes(scheme + rest) == rest
  {
    NoSchemeMarker(rest, "http://");
    NoSchemeMarker(rest, "https://");
    var s := scheme + rest;
    if scheme == "http://" {
      ReplaceAllAtStart(rest, "http://");
      ReplaceAllAbsent(rest, "https://", "");
    } else if scheme == "https://" {
      forall j | 0 <= j <= |s| ensures !OccursAt(s, "http://", j) {
        if j + 7 <= |s| {
          if j == 0 {
            assert s[j..j + 7][4] != ':';
          } else if j < 8 {
            assert s[j..j + 7][0] != 'h';
          } else if s[j + 4] == ':' {
            assert s[j + 4] == rest[j + 4 - 8] && s[j + 5] == rest[j + 5 - 8];
            assert s[j..j + 7][5] != '/';
          } else {
            assert s[j..j + 7][4] != ':';
          }
        }
      }
      ReplaceAllAbsent(s, "http://", "");
      ReplaceAllAtStart(rest, "https://");
    } else {
      assert s == rest;
      ReplaceAllAbsent(rest, "http://", "");
      ReplaceAllAbsent(rest, "https://", "");
    }
  }

  lemma ParseEndpointWithPort(scheme: string, host: string, port: nat, useSsl: bool)
    requires scheme in {"", "http://", "https://"}
    requires host != "" && ':' !in host
    ensures ParseEndpoint(Some(scheme + host + ":" + NatToString(port)), useSsl)
            == Ok(Some(Endpoint(host, port)))
  {
    var digits := NatToString(port);
    var rest := host + ":" + digits;
    NoSlashAfterColon(host, digits);
    StripSchemeMarkers(scheme, rest);
    assert scheme + host + ":" + digits == scheme + rest;
    DigitsHaveNoColon(digits);
    SplitHostPort(host, digits);
    ParseEndpointVia(scheme + rest, [host, digits], useSsl);
    HostAndPortDigits(host, port, useSsl);
  }

  lemma ParseEndpointVia(e: string, parts: seq<string>, useSsl: bool)
    requires e != "" && Split(StripSchemes(e), ':') == parts
    ensures ParseEndpoint(Some(e), useSsl) == HostAndPort(parts, useSsl)
  {
  }

  lemma HostAndPortDigits(host: string, port: nat, useSsl: bool)
    requires host != "" && ':' !in host
    ensures HostAndPort([host, NatToString(port)], useSsl) == Ok(Some(Endpoint(host, port)))
  {
    var digits := NatToString(port);
    ParsePyIntDigits(digits);
  }

  lemma DigitsHaveNoColon(digits: string)
    requires AllDigits(digits)
    ensures ':' !in digits
  {
    forall j | 0 <= j < |digits| ensures digits[j] != ':' {
      assert IsDigit(digits[j]);
    }
  }

  lemma SplitHostPort(host: string, port: string)
    requires ':' !in host && ':' !in port
    ensures Split(host + ":" + port, ':') == [host, port]
  {
    var parts := [host, port];
    JoinSplit(parts, ':');
    assert Join(parts[1..], [':']) == port;
    assert Join(parts, [':']) == host + ":" + port;
  }

  lemma NoSlashAfterColon(host: string, digits: string)
    requires ':' !in host && AllDigits(digits) && digits != ""
    ensures var rest := host + ":" + digits;
      forall k :: 0 <= k < |rest| - 1 && rest[k] == ':' ==> rest[k + 1] != '/'
  {
    var rest := host + ":" + digits;
    forall k | 0 <= k < |rest| - 1 ensures rest[k] != ':' || rest[k + 1] != '/' {
      if k < |host| {
        assert rest[k] == host[k];
      } else {
        assert rest[k + 1] == digits[k - |host|];
      }
    }
  }

  lemma ParseEndpointWithoutPort(scheme: string, host: string, useSsl: bool)
    requires scheme in {"", "http://", "https://"}
    requires host != "" && ':' !in host
    ensures ParseEndpoint(Some(scheme + host), useSsl)
            == Ok(Some(Endpoint(host, if useSsl then 443 else 9000)))
  {
    StripSchemeMarkers(scheme, host);
    JoinSplit([host], ':');
    assert Join([host], [':']) == host;
  }

  /** `MINIO_BUCKET`: the variable's value, or "resumes" when unset. */
  const DefaultBucket: string := "resumes"

  function Bucket(env: Option<string>): string
  {
    env.GetOr(DefaultBucket)
  }

  /** `get_public_url`: `<public base>/<bucket>/<object name>`. The base is
      `MINIO_PUBLIC_URL` as read from the environment; the f-string renders
      an unset variable as "None". */
  function PublicUrl(publicBase: Option<string>, bucket: string, objectName: string): string
  {
    publicBase.GetOr("None") + "/" + bucket + "/" + objectName
  }

  /** The object name can be read back from the URL: it is whatever follows
      `<base>/<bucket>/`, so with the same base and bucket two objects never
      share a URL. */
  lemma PublicUrlNamesObject(publicBase: Option<string>, bucket: string, objectName: string, other: string)
    ensures var u := PublicUrl(publicBase, bucket, objectName);
      var n := |publicBase.GetOr("None")| + |bucket| + 2;
      n <= |u| && u[..n] == publicBase.GetOr("None") + "/" + bucket + "/" && u[n..] == objectName
    ensures PublicUrl(publicBase, bucket, objectName) == PublicUrl(publicBase, bucket, other) <==> objectName == other
  {
    var lead := publicBase.GetOr("None") + "/" + bucket + "/";
    assert PublicUrl(publicBase, bucket, objectName) == lead + objectName;
    assert PublicUrl(publicBase, bucket, other) == lead + other;
    if lead + objectName == lead + other {
      assert objectName == (lead + objectName)[|lead|..];
    }
  }
}

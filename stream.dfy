/** backend/api/resume_views.py: the demo rate limiter and the event stream
    of `generate_resume_stream`. The generation service is an oracle that
    answers each section (by its 1-based position) with content or with the
    text of the exception it raised; the user-details query, the JWT check
    and the clock are parameters. */
module ResumeStream {
  import opened Wrappers
  import opened Strings
  import opened ResumeSections
  import opened TokenManagement

  // The demo rate limiter.

  /** What `check_demo_rate_limit` returns, and the rows afterwards. */
  datatype RateDecision = RateDecision(allowed: bool, count: int, records: seq<TokenRecord>)

  /** Whether the token is non-empty, verifies, carries a non-empty `ip`
      claim and has a live row for that IP. */
  predicate LiveMatch(rs: seq<TokenRecord>, jwt: string, now: int, verify: string -> Option<Claims>)
  {
    && jwt != ""
    && verify(jwt).Some?
    && verify(jwt).value.ip.Some?
    && verify(jwt).value.ip.value != ""
    && FirstMatch(rs, jwt, verify(jwt).value.ip.value, now).Some?
  }

  /** `check_demo_rate_limit(jwt_token)`: refused with 0 and no write when
      the token is empty, does not verify, carries no `ip` claim or has no
      live row; refused with the count when it is at least 5; otherwise the
      count goes up by one on every row of the token and IP. */
  function RateLimit(rs: seq<TokenRecord>, jwt: string, now: int, verify: string -> Option<Claims>): (d: RateDecision)
    ensures !d.allowed ==> d.records == rs
    ensures d.allowed ==> d.count <= GenerationLimit
    ensures !LiveMatch(rs, jwt, now, verify) ==> d == RateDecision(false, 0, rs)
    ensures LiveMatch(rs, jwt, now, verify) ==>
              var c := rs[FirstMatch(rs, jwt, verify(jwt).value.ip.value, now).value].count;
              (d.allowed <==> c < GenerationLimit) && d.count == (if d.allowed then c + 1 else c)
  {
    if jwt == "" then RateDecision(false, 0, rs)
    else match verify(jwt)
      case None => RateDecision(false, 0, rs)
      case Some(claims) =>
        if claims.ip.None? || claims.ip.value == "" then RateDecision(false, 0, rs)
        else
          var ip := claims.ip.value;
          match FirstMatch(rs, jwt, ip, now)
          case None => RateDecision(false, 0, rs)
          case Some(i) =>
            var c := rs[i].count;
            if c >= GenerationLimit then RateDecision(false, c, rs)
            else RateDecision(true, c + 1, Recounted(rs, jwt, ip, c + 1))
  }

  /** `check_demo_rate_limit`, against the table. */
  method CheckDemoRateLimit(table: TokenTable, jwt: string, now: int, verify: string -> Option<Claims>)
    returns (allowed: bool, count: int)
    requires table.Valid()
    modifies table
    ensures table.Valid() && table.nextId == old(table.nextId)
    ensures RateLimit(old(table.records), jwt, now, verify) == RateDecision(allowed, count, table.records)
  {
    if jwt == "" {
      return false, 0;
    }
    var claims := verify(jwt);
    if claims.None? || claims.value.ip.None? || claims.value.ip.value == "" {
      return false, 0;
    }
    var ip := claims.value.ip.value;
    var i := FirstMatch(table.records, jwt, ip, now);
    if i.None? {
      return false, 0;
    }
    var c := table.records[i.value].count;
    if c >= GenerationLimit {
      return false, c;
    }
    RecountedValid(table.records, table.nextId, jwt, ip, c + 1);
    table.records := Recounted(table.records, jwt, ip, c + 1);
    allowed, count := true, c + 1;
  }

  lemma RecountedValid(rs: seq<TokenRecord>, nextId: int, token: string, ip: string, n: int)
    requires DistinctIds(rs) && forall i :: 0 <= i < |rs| ==> rs[i].id < nextId && rs[i].count >= 0
    requires n >= 0
    ensures DistinctIds(Recounted(rs, token, ip, n))
    ensures forall i :: 0 <= i < |rs| ==> Recounted(rs, token, ip, n)[i].id < nextId && Recounted(rs, token, ip, n)[i].count >= 0
  {
  }

  /** The answers of `n` calls in a row with the same token. */
  function Runs(rs: seq<TokenRecord>, jwt: string, now: int, verify: string -> Option<Claims>, n: nat): (r: seq<(bool, int)>)
    ensures |r| == n
    decreases n
  {
    if n == 0 then []
    else
      var d := RateLimit(rs, jwt, now, verify);
      [(d.allowed, d.count)] + Runs(d.records, jwt, now, verify, n - 1)
  }

  /** The rate limiter on a token whose first live row holds `c`. */
  lemma RateLimitAt(rs: seq<TokenRecord>, jwt: string, ip: string, now: int,
                    verify: string -> Option<Claims>, c: int)
    requires jwt != "" && ip != "" && verify(jwt) == Some(Claims(Some(ip)))
    requires FirstMatch(rs, jwt, ip, now).Some? && rs[FirstMatch(rs, jwt, ip, now).value].count == c
    ensures RateLimit(rs, jwt, now, verify) ==
            if c >= GenerationLimit then RateDecision(false, c, rs)
            else RateDecision(true, c + 1, Recounted(rs, jwt, ip, c + 1))
  {
  }

  /** A live row with count `c` (at most 5) is allowed `5 - c` more times,
      reporting `c + 1`, ..., `5`, and then refused, reporting 5. */
  lemma {:induction false} RunsUpToLimit(rs: seq<TokenRecord>, jwt: string, ip: string, now: int,
                                          verify: string -> Option<Claims>, c: int)
    requires jwt != "" && ip != "" && verify(jwt) == Some(Claims(Some(ip)))
    requires FirstMatch(rs, jwt, ip, now).Some? && rs[FirstMatch(rs, jwt, ip, now).value].count == c
    requires 0 <= c <= GenerationLimit
    ensures Runs(rs, jwt, now, verify, GenerationLimit - c + 1)
            == seq(GenerationLimit - c, k => (true, c + 1 + k)) + [(false, GenerationLimit)]
    decreases GenerationLimit - c
  {
    RateLimitAt(rs, jwt, ip, now, verify, c);
    var n := GenerationLimit - c + 1;
    if c == GenerationLimit {
      assert Runs(rs, jwt, now, verify, 0) == [];
    } else {
      var rs' := Recounted(rs, jwt, ip, c + 1);
      RecountedFoundAgain(rs, jwt, ip, now, c + 1);
      RunsUpToLimit(rs', jwt, ip, now, verify, c + 1);
      assert Runs(rs, jwt, now, verify, n) == [(true, c + 1)] + Runs(rs', jwt, now, verify, n - 1);
      CountsFrom(c);
    }
  }

  lemma CountsFrom(c: int)
    requires 0 <= c < GenerationLimit
    ensures seq(GenerationLimit - c, k => (true, c + 1 + k)) + [(false, GenerationLimit)]
            == [(true, c + 1)] + (seq(GenerationLimit - (c + 1), k => (true, c + 1 + 1 + k)) + [(false, GenerationLimit)])
  {
    var a := seq(GenerationLimit - c, k => (true, c + 1 + k));
    var b := seq(GenerationLimit - (c + 1), k => (true, c + 1 + 1 + k));
    assert a == [(true, c + 1)] + b;
  }

  /** Five generations from a fresh token, then a refusal that reports 5:
      the first `n` calls (up to six) answer with the first `n` of these. */
  lemma FiveThenRefused(rs: seq<TokenRecord>, jwt: string, ip: string, now: int,
                        verify: string -> Option<Claims>, n: nat)
    requires jwt != "" && ip != "" && verify(jwt) == Some(Claims(Some(ip)))
    requires FirstMatch(rs, jwt, ip, now).Some? && rs[FirstMatch(rs, jwt, ip, now).value].count == 0
    requires n <= GenerationLimit + 1
    ensures Runs(rs, jwt, now, verify, n) == [(true, 1), (true, 2), (true, 3), (true, 4), (true, 5), (false, 5)][..n]
  {
    var c := rs[FirstMatch(rs, jwt, ip, now).value].count;
    RunsUpToLimit(rs, jwt, ip, now, verify, c);
    RunsPrefix(rs, jwt, now, verify, n, GenerationLimit - c + 1);
    CountsFromZero(c);
  }

  lemma CountsFromZero(c: int)
    requires c == 0
    ensures seq(GenerationLimit - c, k => (true, c + 1 + k)) + [(false, GenerationLimit)]
            == [(true, 1), (true, 2), (true, 3), (true, 4), (true, 5), (false, 5)]
  {
    var counts := seq(GenerationLimit - c, k => (true, c + 1 + k));
    assert counts[0] == (true, 1) && counts[1] == (true, 2) && counts[2] == (true, 3);
    assert counts[3] == (true, 4) && counts[4] == (true, 5);
    assert counts == [(true, 1), (true, 2), (true, 3), (true, 4), (true, 5)];
  }

  /** Fewer calls answer with a prefix of the answers of more calls. */
  lemma {:induction false} RunsPrefix(rs: seq<TokenRecord>, jwt: string, now: int,
                                      verify: string -> Option<Claims>, n: nat, m: nat)
    requires n <= m
    ensures Runs(rs, jwt, now, verify, n) == Runs(rs, jwt, now, verify, m)[..n]
    decreases n
  {
    if n > 0 {
      var d := RateLimit(rs, jwt, now, verify);
      RunsPrefix(d.records, jwt, now, verify, n - 1, m - 1);
      ConsPrefix((d.allowed, d.count), Runs(d.records, jwt, now, verify, m - 1), n);
    }
  }

  lemma ConsPrefix<T>(x: T, tail: seq<T>, n: nat)
    requires 0 < n <= |tail| + 1
    ensures ([x] + tail)[..n] == [x] + tail[..n - 1]
  {
  }

  /** An allowed generation reports a count between 1 and 5 and stores it. */
  lemma AllowedCountInRange(rs: seq<TokenRecord>, jwt: string, now: int, verify: string -> Option<Claims>)
    requires forall i :: 0 <= i < |rs| ==> rs[i].count >= 0
    requires RateLimit(rs, jwt, now, verify).allowed
    ensures var d := RateLimit(rs, jwt, now, verify);
      1 <= d.count <= GenerationLimit
      && var ip := verify(jwt).value.ip.value;
         FirstMatch(d.records, jwt, ip, now).Some?
         && d.records[FirstMatch(d.records, jwt, ip, now).value].count == d.count
  {
    var ip := verify(jwt).value.ip.value;
    var i := FirstMatch(rs, jwt, ip, now).value;
    RecountedFoundAgain(rs, jwt, ip, now, rs[i].count + 1);
  }

  // The event stream.

  /** `request.data` of the generation request; "" stands for a missing or
      empty value. */
  datatype StreamRequest = StreamRequest(prompt: string, jobDescription: string, userId: string,
                                         jwtToken: string, username: string)

  /** The extra fields of a `section` event; a name that is `None` is sent
      as JSON `null`. */
  datatype SectionDetail =
    | NoDetail
    | CompanyDetail(companyName: Option<string>, index: nat)
    | ProjectDetail(projectName: Option<string>, index: nat)

  /** The JSON objects the stream sends, one per `data:` frame. */
  datatype Event =
    | Error(error: string, rateLimitCount: Option<int>)
    | Progress(total: nat, current: nat, about: Option<(string, string)>, message: string)
    | SectionDone(section: string, title: string, content: string, detail: SectionDetail, total: nat, current: nat)
    | SectionFailed(section: string, title: string, error: string, total: nat, current: nat)
    | Complete(total: nat, sections: seq<string>)

  const MissingFieldsMessage: string := "prompt, job_description, and user_id are required"
  const MissingJwtMessage: string := "JWT token is required for demo users"
  const RateLimitMessage: string :=
    "Rate limit exceeded. You have generated 5 resumes in the last hour. Please wait before generating more."
  const InvalidUserIdMessage: string := "Invalid user_id. Must be a valid integer."
  const MissingOllamaMessage: string :=
    "Ollama configuration is missing. Please set OLLAMA_HOST, OLLAMA_PORT, and OLLAMA_MODEL environment variables."
  const StartMessage: string := "Job description received. Starting resume generation..."

  /** Python's `str` of an integer. */
  function IntToString(n: int): string
  {
    if n < 0 then "-" + NatToString(-n) else NatToString(n)
  }

  function UnknownUserMessage(id: int): string
  {
    "User with id " + IntToString(id) + " does not exist or has no data."
  }

  /** The key of a successful section in `accumulated_response`. */
  function Key(s: Section): string
  {
    match s.data
    case SummaryData(_, _, _) => s.section
    case ExperienceData(_, index, _) => s.section + "_" + NatToString(index)
    case ProjectData(_, index, _) => s.section + "_" + NatToString(index)
  }

  function Detail(s: Section): SectionDetail
  {
    match s.data
    case SummaryData(_, _, _) => NoDetail
    case ExperienceData(_, index, company) => CompanyDetail(company, index)
    case ProjectData(_, index, name) => ProjectDetail(name, index)
  }

  /** The `section` event of experience `k` sends its company as read, a
      NULL column as JSON `null`, with index `k`; that of project `k` sends
      the project's name the same way. */
  lemma DetailAt(details: UserDetails, job: string, k: nat)
    ensures k < |details.experiences| ==>
      Detail(Sections(details, job)[1 + k]) == CompanyDetail(Get(details.experiences[k].companyName), k)
    ensures k < |details.projects| ==>
      Detail(Sections(details, job)[1 + |details.experiences| + k]) == ProjectDetail(Get(details.projects[k].name), k)
  {
    if k < |details.experiences| {
      ExperienceAt(details, job, k);
    }
    if k < |details.projects| {
      ProjectAt(details, job, k);
    }
  }

  /** The two events of the section at 1-based position `i`. */
  function SectionPair(s: Section, i: nat, total: nat, answer: Result<string, string>): seq<Event>
  {
    [Progress(total, i, Some((s.section, s.title)), "Generating " + s.title + "...")]
    + match answer
      case Ok(content) => [SectionDone(s.section, s.title, content, Detail(s), total, i)]
      case Err(e) => [SectionFailed(s.section, s.title, "Error generating " + s.title + ": " + e, total, i)]
  }

  /** The events of the section loop over `ss`, the first `|ss|` of `total`. */
  function SectionEvents(ss: seq<Section>, total: nat, generate: nat -> Result<string, string>): (es: seq<Event>)
    ensures |es| == 2 * |ss|
  {
    if ss == [] then []
    else SectionEvents(ss[..|ss| - 1], total, generate)
         + SectionPair(ss[|ss| - 1], |ss|, total, generate(|ss|))
  }

  /** `list(accumulated_response.keys())`: a key is added the first time a
      section with that key succeeds; assigning it again keeps its place. */
  function AccumulatedKeys(ss: seq<Section>, generate: nat -> Result<string, string>): seq<string>
  {
    if ss == [] then []
    else
      var ks := AccumulatedKeys(ss[..|ss| - 1], generate);
      var k := Key(ss[|ss| - 1]);
      if generate(|ss|).Ok? && k !in ks then ks + [k] else ks
  }

  /** The keys of the successful sections, in order. */
  function SuccessKeys(ss: seq<Section>, generate: nat -> Result<string, string>): seq<string>
  {
    if ss == [] then []
    else SuccessKeys(ss[..|ss| - 1], generate)
         + (if generate(|ss|).Ok? then [Key(ss[|ss| - 1])] else [])
  }

  /** The whole run once every check has passed. */
  function Generation(ss: seq<Section>, generate: nat -> Result<string, string>): seq<Event>
  {
    [Progress(|ss|, 0, None, StartMessage)] + SectionEvents(ss, |ss|, generate)
    + [Complete(|ss|, AccumulatedKeys(ss, generate))]
  }

  /** What a call of `generate_resume_stream` sends, and the token rows after it. */
  datatype StreamOutcome = StreamOutcome(events: seq<Event>, records: seq<TokenRecord>)

  /** The checks of `generate_resume_stream`, in the view's order: the
      profile to generate for, or the one `error` event that ends the
      stream; and the token rows afterwards. A demo user's counter is
      consumed before `user_id` is read. `configured` says whether the three
      Ollama settings are all set, and `details` is the user-details query
      (`None` for a user without data). */
  function Gate(req: StreamRequest, rs: seq<TokenRecord>, now: int, verify: string -> Option<Claims>,
                configured: bool, details: int -> Option<UserDetails>): (Result<UserDetails, Event>, seq<TokenRecord>)
  {
    if req.prompt == "" || req.jobDescription == "" || req.userId == "" then
      (Err(Error(MissingFieldsMessage, None)), rs)
    else if req.username == "demo" && req.jwtToken == "" then
      (Err(Error(MissingJwtMessage, None)), rs)
    else
      var d := if req.username == "demo" then RateLimit(rs, req.jwtToken, now, verify) else RateDecision(true, 0, rs);
      if !d.allowed then (Err(Error(RateLimitMessage, Some(d.count))), d.records)
      else match ParsePyInt(req.userId)
        case None => (Err(Error(InvalidUserIdMessage, None)), d.records)
        case Some(uid) =>
          if !configured then (Err(Error(MissingOllamaMessage, None)), d.records)
          else match details(uid)
            case None => (Err(Error(UnknownUserMessage(uid), None)), d.records)
            case Some(user) => (Ok(user), d.records)
  }

  /** `generate_resume_stream`: the checks, then the generation. */
  function Stream(req: StreamRequest, rs: seq<TokenRecord>, now: int, verify: string -> Option<Claims>,
                  configured: bool, details: int -> Option<UserDetails>,
                  generate: nat -> Result<string, string>): StreamOutcome
  {
    var (gate, rs') := Gate(req, rs, now, verify, configured, details);
    match gate
    case Err(e) => StreamOutcome([e], rs')
    case Ok(user) => StreamOutcome(Generation(Sections(user, req.jobDescription), generate), rs')
  }

  /** `generate_resume_stream`, step by step as the view runs it. */
  method GenerateResumeStream(req: StreamRequest, table: TokenTable, now: int, verify: string -> Option<Claims>,
                              configured: bool, details: int -> Option<UserDetails>,
                              generate: nat -> Result<string, string>)
    returns (events: seq<Event>)
    requires table.Valid()
    modifies table
    ensures table.Valid()
    ensures Stream(req, old(table.records), now, verify, configured, details, generate)
            == StreamOutcome(events, table.records)
  {
    if req.prompt == "" || req.jobDescription == "" || req.userId == "" {
      return [Error(MissingFieldsMessage, None)];
    }
    if req.username == "demo" {
      if req.jwtToken == "" {
        return [Error(MissingJwtMessage, None)];
      }
      var allowed, count := CheckDemoRateLimit(table, req.jwtToken, now, verify);
      if !allowed {
        return [Error(RateLimitMessage, Some(count))];
      }
    }
    var uid := ParsePyInt(req.userId);
    if uid.None? {
      return [Error(InvalidUserIdMessage, None)];
    }
    if !configured {
      return [Error(MissingOllamaMessage, None)];
    }
    var user := details(uid.value);
    if user.None? {
      return [Error(UnknownUserMessage(uid.value), None)];
    }
    var sections := PrepareResumeSections(user.value, req.prompt, req.jobDescription);
    events := GenerateSections(sections, generate);
  }

  /** The section loop: a progress event, then the section or its error,
      filling `accumulated_response`; then `complete`. */
  method GenerateSections(sections: seq<Section>, generate: nat -> Result<string, string>) returns (events: seq<Event>)
    ensures events == Generation(sections, generate)
  {
    var total := |sections|;
    events := [Progress(total, 0, None, StartMessage)];
    var keys: seq<string> := [];
    var accumulated: map<string, (string, string)> := map[];
    for index := 1 to total + 1
      invariant events == [Progress(total, 0, None, StartMessage)] + SectionEvents(sections[..index - 1], total, generate)
      invariant keys == AccumulatedKeys(sections[..index - 1], generate)
      invariant accumulated.Keys == set k | k in keys
    {
      var s := sections[index - 1];
      assert sections[..index][..index - 1] == sections[..index - 1];
      events := events + [Progress(total, index, Some((s.section, s.title)), "Generating " + s.title + "...")];
      var answer := generate(index);
      if answer.Ok? {
        var key := Key(s);
        if key !in accumulated {
          keys := keys + [key];
        }
        accumulated := accumulated[key := (s.title, answer.value)];
        events := events + [SectionDone(s.section, s.title, answer.value, Detail(s), total, index)];
      } else {
        events := events + [SectionFailed(s.section, s.title, "Error generating " + s.title + ": " + answer.error, total, index)];
      }
    }
    assert sections[..total] == sections;
    events := events + [Complete(total, keys)];
  }

  // Properties of the stream.

  /** A stream that gets past the checks has 2N + 2 events for N sections:
      `progress` 0, then a `progress` and a `section` or `section_error` per
      section, then `complete`. */
  lemma GenerationShape(ss: seq<Section>, generate: nat -> Result<string, string>)
    ensures var es := Generation(ss, generate);
      && |es| == 2 * |ss| + 2
      && es[0] == Progress(|ss|, 0, None, StartMessage)
      && es[|es| - 1] == Complete(|ss|, AccumulatedKeys(ss, generate))
  {
  }

  /** The events for the section at 1-based position `i`: its progress, then
      its `section` when the service answers and its `section_error`
      otherwise, and the loop goes on either way. */
  lemma {:induction false} SectionEventsAt(ss: seq<Section>, total: nat, generate: nat -> Result<string, string>, i: nat)
    requires 1 <= i <= |ss|
    ensures var es := SectionEvents(ss, total, generate);
      var s := ss[i - 1];
      && es[2 * i - 2] == Progress(total, i, Some((s.section, s.title)), "Generating " + s.title + "...")
      && (generate(i).Ok? ==> es[2 * i - 1] == SectionDone(s.section, s.title, generate(i).value, Detail(s), total, i))
      && (generate(i).Err? ==> es[2 * i - 1].SectionFailed? && es[2 * i - 1].current == i)
    decreases |ss|
  {
    var init := ss[..|ss| - 1];
    if i < |ss| {
      SectionEventsAt(init, total, generate, i);
      assert init[i - 1] == ss[i - 1];
    }
  }

  /** Every check that fails ends the stream with exactly one `error`
      event; otherwise the stream is the generation for the profile. */
  lemma ChecksEndWithOneError(req: StreamRequest, rs: seq<TokenRecord>, now: int, verify: string -> Option<Claims>,
                              configured: bool, details: int -> Option<UserDetails>,
                              generate: nat -> Result<string, string>)
    ensures var (gate, _) := Gate(req, rs, now, verify, configured, details);
      var o := Stream(req, rs, now, verify, configured, details, generate);
      && (gate.Err? ==> o.events == [gate.error] && gate.error.Error?)
      && (gate.Ok? ==> o.events == Generation(Sections(gate.value, req.jobDescription), generate))
  {
  }

  /** The checks pass exactly when the fields are present, a demo user has
      a token the rate limiter allows, `user_id` is an integer, the service
      is configured and the user has data. */
  lemma GatePassesIff(req: StreamRequest, rs: seq<TokenRecord>, now: int, verify: string -> Option<Claims>,
                      configured: bool, details: int -> Option<UserDetails>)
    ensures Gate(req, rs, now, verify, configured, details).0.Ok? <==>
        && req.prompt != "" && req.jobDescription != "" && req.userId != ""
        && (req.username == "demo" ==> req.jwtToken != "" && RateLimit(rs, req.jwtToken, now, verify).allowed)
        && ParsePyInt(req.userId).Some? && configured && details(ParsePyInt(req.userId).value).Some?
  {
  }

  /** Only a demo user's allowed request changes the token rows. */
  lemma GateWritesOnlyForDemo(req: StreamRequest, rs: seq<TokenRecord>, now: int, verify: string -> Option<Claims>,
                              configured: bool, details: int -> Option<UserDetails>)
    ensures var rs' := Gate(req, rs, now, verify, configured, details).1;
      rs' == rs || (req.username == "demo" && RateLimit(rs, req.jwtToken, now, verify).allowed
                    && rs' == RateLimit(rs, req.jwtToken, now, verify).records)
  {
  }

  /** A demo user's counter is consumed before `user_id` is read: a request
      refused for its `user_id` still stores the incremented count. */
  lemma DemoCounterSpentOnBadUserId(req: StreamRequest, rs: seq<TokenRecord>, now: int, verify: string -> Option<Claims>,
                                    configured: bool, details: int -> Option<UserDetails>)
    requires req.prompt != "" && req.jobDescription != "" && req.userId != ""
    requires req.username == "demo" && RateLimit(rs, req.jwtToken, now, verify).allowed
    requires ParsePyInt(req.userId).None?
    ensures Gate(req, rs, now, verify, configured, details)
            == (Err(Error(InvalidUserIdMessage, None)), RateLimit(rs, req.jwtToken, now, verify).records)
    ensures RateLimit(rs, req.jwtToken, now, verify).records != rs
  {
    AllowedWrites(rs, req.jwtToken, now, verify);
  }

  /** An allowed call always writes: the first live row's count changes. */
  lemma AllowedWrites(rs: seq<TokenRecord>, jwt: string, now: int, verify: string -> Option<Claims>)
    requires RateLimit(rs, jwt, now, verify).allowed
    ensures RateLimit(rs, jwt, now, verify).records != rs
  {
    var d := RateLimit(rs, jwt, now, verify);
    var ip := verify(jwt).value.ip.value;
    var i := FirstMatch(rs, jwt, ip, now).value;
    RecountedFoundAgain(rs, jwt, ip, now, d.count);
    assert d.records[i].count != rs[i].count;
  }

  // The keys listed by `complete`.

  /** The keys of the sections built from a profile are pairwise distinct. */
  lemma KeysDistinct(details: UserDetails, job: string, i: nat, j: nat)
    requires i < j < |Sections(details, job)|
    ensures Key(Sections(details, job)[i]) != Key(Sections(details, job)[j])
  {
    var n := |details.experiences|;
    if i == 0 {
      SummaryKeyUnique(details, job, j);
    } else if j <= n {
      ExperienceKeys(details, job, i, j);
    } else if i > n {
      ProjectKeys(details, job, i, j);
    } else {
      MixedKeys(details, job, i, j);
    }
  }

  lemma SummaryKeyUnique(details: UserDetails, job: string, j: nat)
    requires 0 < j < |Sections(details, job)|
    ensures Key(Sections(details, job)[0]) != Key(Sections(details, job)[j])
  {
    SummaryFirst(details, job);
    SectionOrder(details, job, j);
    KindOfKey(Sections(details, job)[j]);
  }

  lemma ExperienceKeys(details: UserDetails, job: string, i: nat, j: nat)
    requires 1 <= i < j <= |details.experiences|
    ensures Key(Sections(details, job)[i]) != Key(Sections(details, job)[j])
  {
    var a, b := i - 1, j - 1;
    ExperienceKey(details, job, a);
    ExperienceKey(details, job, b);
    NumberedKeysDiffer("experience" + "_", a, b, Key(Sections(details, job)[i]), Key(Sections(details, job)[j]));
  }

  lemma ExperienceKey(details: UserDetails, job: string, k: nat)
    requires k < |details.experiences|
    ensures Key(Sections(details, job)[1 + k]) == "experience" + "_" + NatToString(k)
  {
    ExperienceAt(details, job, k);
  }

  lemma ProjectKeys(details: UserDetails, job: string, i: nat, j: nat)
    requires |details.experiences| < i < j < |Sections(details, job)|
    ensures Key(Sections(details, job)[i]) != Key(Sections(details, job)[j])
  {
    var n := |details.experiences|;
    var a, b := i - 1 - n, j - 1 - n;
    ProjectKey(details, job, a);
    ProjectKey(details, job, b);
    NumberedKeysDiffer("project" + "_", a, b, Key(Sections(details, job)[i]), Key(Sections(details, job)[j]));
  }

  lemma ProjectKey(details: UserDetails, job: string, k: nat)
    requires k < |details.projects|
    ensures Key(Sections(details, job)[1 + |details.experiences| + k]) == "project" + "_" + NatToString(k)
  {
    ProjectAt(details, job, k);
  }

  lemma MixedKeys(details: UserDetails, job: string, i: nat, j: nat)
    requires 1 <= i <= |details.experiences| < j < |Sections(details, job)|
    ensures Key(Sections(details, job)[i]) != Key(Sections(details, job)[j])
  {
    ExperienceAt(details, job, i - 1);
    ProjectAt(details, job, j - 1 - |details.experiences|);
    KeyHead(Sections(details, job)[i]);
    KeyHead(Sections(details, job)[j]);
  }

  /** A key starts with the section's kind. */
  lemma KeyHead(s: Section)
    requires s.section != ""
    ensures Key(s) != "" && Key(s)[0] == s.section[0]
  {
  }

  lemma KindOfKey(s: Section)
    requires s.section in {"experience", "project"}
    ensures Key(s) != "summary"
  {
    KeyHead(s);
  }

  lemma NatToStringInjective(a: nat, b: nat)
    requires a != b
    ensures NatToString(a) != NatToString(b)
  {
  }

  lemma NumberedKeysDiffer(prefix: string, a: nat, b: nat, x: string, y: string)
    requires a != b && x == prefix + NatToString(a) && y == prefix + NatToString(b)
    ensures x != y
  {
    NatToStringInjective(a, b);
    SuffixDiffers(prefix, NatToString(a), NatToString(b));
  }

  lemma SuffixDiffers(p: string, a: string, b: string)
    requires a != b
    ensures p + a != p + b
  {
    assert (p + a)[|p|..] == a;
    assert (p + b)[|p|..] == b;
  }

  /** With distinct keys, assigning into the dictionary appends every key:
      the keys `complete` lists are those of the successful sections. */
  lemma {:induction false} AccumulatedAreSuccesses(ss: seq<Section>, generate: nat -> Result<string, string>)
    requires forall i, j :: 0 <= i < j < |ss| ==> Key(ss[i]) != Key(ss[j])
    ensures AccumulatedKeys(ss, generate) == SuccessKeys(ss, generate)
    ensures forall k :: k in SuccessKeys(ss, generate) ==> exists i :: 0 <= i < |ss| && Key(ss[i]) == k
    decreases |ss|
  {
    if ss != [] {
      var init := ss[..|ss| - 1];
      AccumulatedAreSuccesses(init, generate);
      var k := Key(ss[|ss| - 1]);
      forall k' | k' in SuccessKeys(init, generate) ensures k' != k {
        var i :| 0 <= i < |init| && Key(init[i]) == k';
        assert init[i] == ss[i];
      }
      forall k' | k' in SuccessKeys(ss, generate) ensures exists i :: 0 <= i < |ss| && Key(ss[i]) == k' {
        if k' in SuccessKeys(init, generate) {
          var i :| 0 <= i < |init| && Key(init[i]) == k';
          assert ss[i] == init[i];
        } else {
          assert Key(ss[|ss| - 1]) == k';
        }
      }
    }
  }

  /** `complete.sections` lists the keys of the successful sections of the
      profile, in order: `summary`, `experience_<k>`, `project_<k>`. */
  lemma CompleteListsSuccesses(details: UserDetails, job: string, generate: nat -> Result<string, string>)
    ensures var ss := Sections(details, job);
      AccumulatedKeys(ss, generate) == SuccessKeys(ss, generate)
  {
    var ss := Sections(details, job);
    forall i, j | 0 <= i < j < |ss| ensures Key(ss[i]) != Key(ss[j]) {
      KeysDistinct(details, job, i, j);
    }
    AccumulatedAreSuccesses(ss, generate);
  }

  // Server-Sent Events framing.

  /** `f"data: {payload}\n\n"`. */
  function Frame(payload: string): string
  {
    "data: " + payload + "\n\n"
  }

  function Framed(payloads: seq<string>): string
  {
    if payloads == [] then "" else Frame(payloads[0]) + Framed(payloads[1..])
  }

  /** A reader of the stream: each frame is "data: ", a payload up to the
      first newline, then a blank line. `None` for anything else. */
  function Unframe(s: string): Option<seq<string>>
    decreases |s|
  {
    if s == [] then Some([])
    else if |s| < 6 || s[..6] != "data: " || '\n' !in s[6..] then None
    else
      var body := s[6..];
      var i := IndexOf(body, '\n');
      if i + 1 < |body| && body[i + 1] == '\n' then
        match Unframe(body[i + 2..])
        case None => None
        case Some(rest) => Some([body[..i]] + rest)
      else None
  }

  /** Payloads without a newline (`json.dumps` escapes every newline) come
      back from the framed stream one for one. */
  lemma {:induction false} UnframeFramed(payloads: seq<string>)
    requires forall i :: 0 <= i < |payloads| ==> '\n' !in payloads[i]
    ensures Unframe(Framed(payloads)) == Some(payloads)
    decreases |payloads|
  {
    if payloads != [] {
      var p, tail := payloads[0], payloads[1..];
      assert payloads == [p] + tail;
      NewlineFreeTail(payloads);
      UnframeFramed(tail);
      UnframeCons(p, Framed(tail), tail);
    }
  }

  lemma NewlineFreeTail(payloads: seq<string>)
    requires payloads != []
    requires forall i :: 0 <= i < |payloads| ==> '\n' !in payloads[i]
    ensures '\n' !in payloads[0]
    ensures forall i :: 0 <= i < |payloads[1..]| ==> '\n' !in payloads[1..][i]
  {
  }

  lemma UnframeCons(p: string, rest: string, tail: seq<string>)
    requires '\n' !in p && Unframe(rest) == Some(tail)
    ensures Unframe(Frame(p) + rest) == Some([p] + tail)
  {
    UnframeStep(p, rest);
  }

  /** Reading one frame gives its payload and leaves the rest. */
  lemma UnframeStep(p: string, rest: string)
    requires '\n' !in p
    ensures Unframe(Frame(p) + rest) ==
            match Unframe(rest) case None => None case Some(ps) => Some([p] + ps)
  {
    var s := Frame(p) + rest;
    var body := p + ['\n'] + ("\n" + rest);
    assert s == "data: " + body;
    assert s[..6] == "data: " && s[6..] == body;
    IndexOfAfter(p, '\n', "\n" + rest);
    assert body[|p| + 1] == '\n';
    assert body[|p| + 2..] == rest;
    assert body[..|p|] == p;
  }
}

/**
 * The service expiry probe: collect every service of an account with its
 * expiry date, find the fewest days left, and grade that number against a
 * warning and a critical threshold (in days). Logging in and scraping the
 * provider are outside the model: the pureservers API records and the text of
 * each 62yun server card are inputs, and so is today's date.
 */
module ExpiryDate {
  import opened Wrappers
  import opened Text
  import opened Nagios
  import opened Calendar

  /** One service: its expiry date, the days left until then, and its description. */
  datatype Service = Service(expiresAt: Date, daysLeft: int, description: string)

  /** What the collection step returns: the services and their joined descriptions. */
  datatype ExpiryDates = ExpiryDates(services: seq<Service>, statusString: string)

  /** A pureservers API record, with `expires_at` already converted to a local calendar date. */
  datatype ServerRecord = ServerRecord(numId: string, primaryIpv4: string, expiresAt: ValidDate)

  /** Where the services come from. */
  datatype Provider = PureServers(servers: seq<ServerRecord>) | Yun(cards: seq<string>)

  const IndexError: string := "list index out of range"
  const MisconfiguredLine: string := "Error: warning threshold cannot be less than critical"

  /** `"<id> (<ip>): <YYYY-MM-DD> (<days> day(s))"`. */
  function Describe(id: string, ip: string, expiresAt: Date, daysLeft: int): string
    requires IsValid(expiresAt)
  {
    id + " (" + ip + "): " + IsoFormat(expiresAt) + " (" + IntToString(daysLeft) + " day(s))"
  }

  /** A service expiring on `expiresAt`, seen on `today`: the days left are the
      whole days between the two, negative once the date has passed. */
  function MakeService(id: string, ip: string, expiresAt: Date, today: Date): (s: Service)
    requires IsValid(expiresAt) && IsValid(today)
    ensures s.expiresAt == expiresAt
    ensures s.daysLeft == ToOrdinal(expiresAt) - ToOrdinal(today)
    ensures s.daysLeft < 0 <==> Before(expiresAt, today)
    ensures s.daysLeft == 0 <==> expiresAt == today
    ensures s.description == Describe(id, ip, expiresAt, s.daysLeft)
  {
    OrdinalOrder(expiresAt, today);
    var daysLeft := ToOrdinal(expiresAt) - ToOrdinal(today);
    Service(expiresAt, daysLeft, Describe(id, ip, expiresAt, daysLeft))
  }

  /** A service that expires tomorrow has one day left, one that expired
      yesterday has minus one. */
  lemma ExpiresTomorrow(id: string, ip: string, today: Date)
    requires IsValid(today) && IsValid(NextDay(today))
    ensures MakeService(id, ip, NextDay(today), today).daysLeft == 1
    ensures MakeService(id, ip, today, NextDay(today)).daysLeft == -1
  {
    OrdinalOfNextDay(today);
  }

  /** `int(s)`, with the message of its `ValueError`. */
  function PyInt(s: string): (r: Result<int, string>)
    ensures r.Ok? <==> ParseDecimal(s).Some?
    ensures r.Ok? ==> r.value == ParseDecimal(s).value
  {
    match ParseDecimal(s)
    case Some(n) => Ok(n)
    case None => Err("invalid literal for int() with base 10: '" + s + "'")
  }

  /**
   * The 62yun expiry field `DD.MM.YYYY`: split on dots, the year is field 2,
   * the month field 1 and the day field 0 (fields past the third are ignored);
   * the fields are converted in that order and the date is range-checked.
   */
  function ParseYunDate(field: string): (r: Result<Date, string>)
    ensures |Split(field, '.')| < 3 ==> r == Err(IndexError)
    ensures r.Ok? ==> IsValid(r.value)
    ensures r.Ok? ==> PyInt(Split(field, '.')[0]) == Ok(r.value.day)
    ensures r.Ok? ==> PyInt(Split(field, '.')[1]) == Ok(r.value.month)
    ensures r.Ok? ==> PyInt(Split(field, '.')[2]) == Ok(r.value.year)
  {
    var parts := Split(field, '.');
    if |parts| < 3 then Err(IndexError)
    else
      match PyInt(parts[2])
      case Err(e) => Err(e)
      case Ok(year) =>
        match PyInt(parts[1])
        case Err(e) => Err(e)
        case Ok(month) =>
          match PyInt(parts[0])
          case Err(e) => Err(e)
          case Ok(day) => MakeDate(year, month, day)
  }

  /** The `DD.MM.YYYY` rendering of a date. */
  function YunDateField(d: Date): string
    requires IsValid(d)
  {
    ZeroPad(NatToString(d.day), 2) + "." + ZeroPad(NatToString(d.month), 2) + "." + ZeroPad(NatToString(d.year), 4)
  }

  /** The dot-separated fields of the `DD.MM.YYYY` rendering. */
  lemma YunDateFieldParts(d: Date)
    requires IsValid(d)
    ensures Split(YunDateField(d), '.')
      == [ZeroPad(NatToString(d.day), 2), ZeroPad(NatToString(d.month), 2), ZeroPad(NatToString(d.year), 4)]
  {
    var dd, mm, yy := ZeroPad(NatToString(d.day), 2), ZeroPad(NatToString(d.month), 2), ZeroPad(NatToString(d.year), 4);
    DigitsHaveNoDot(dd);
    DigitsHaveNoDot(mm);
    DigitsHaveNoDot(yy);
    Split3(dd, mm, yy, '.');
  }

  lemma DigitsHaveNoDot(s: string)
    requires AllDigits(s)
    ensures '.' !in s
  {
  }

  /** Every valid date written as `DD.MM.YYYY` is read back as itself. */
  lemma ParseYunDateField(d: Date)
    requires IsValid(d)
    ensures ParseYunDate(YunDateField(d)) == Ok(d)
  {
    var parts := Split(YunDateField(d), '.');
    YunDateFieldParts(d);
    assert PyInt(parts[0]) == Ok(d.day) by {
      ParsePadded(d.day, 2);
    }
    assert PyInt(parts[1]) == Ok(d.month) by {
      ParsePadded(d.month, 2);
    }
    assert PyInt(parts[2]) == Ok(d.year) by {
      ParsePadded(d.year, 4);
    }
  }

  /**
   * One 62yun server card: its text split into lines is the IP, the name and
   * the expiry field, then anything else. A card with fewer than three lines,
   * or whose expiry field does not read as a date, is an error.
   */
  function ParseYunService(card: string, today: Date): Result<Service, string>
    requires IsValid(today)
  {
    var lines := Split(card, '\n');
    if |lines| < 3 then Err(IndexError)
    else
      match ParseYunDate(lines[2])
      case Err(e) => Err(e)
      case Ok(d) => Ok(MakeService(lines[1], lines[0], d, today))
  }

  /** A card whose lines are the IP, the name, the `DD.MM.YYYY` field and any
      further lines, none holding a line break, reads back as a service with
      that name, address and expiry date. */
  lemma YunCardRoundTrip(lines: seq<string>, d: Date, today: Date)
    requires IsValid(d) && IsValid(today)
    requires |lines| >= 3 && lines[2] == YunDateField(d)
    requires forall i :: 0 <= i < |lines| ==> '\n' !in lines[i]
    ensures ParseYunService(Join(lines, "\n"), today) == Ok(MakeService(lines[1], lines[0], d, today))
  {
    SplitJoinLines(lines);
    ParseYunDateField(d);
    ParseCardLines(Join(lines, "\n"), lines, d, today);
  }

  lemma SplitJoinLines(lines: seq<string>)
    requires |lines| >= 1
    requires forall i :: 0 <= i < |lines| ==> '\n' !in lines[i]
    ensures Split(Join(lines, "\n"), '\n') == lines
  {
    SplitJoin(lines, '\n');
  }

  lemma ParseCardLines(card: string, lines: seq<string>, d: Date, today: Date)
    requires IsValid(d) && IsValid(today) && |lines| >= 3
    requires Split(card, '\n') == lines
    requires ParseYunDate(lines[2]) == Ok(d)
    ensures ParseYunService(card, today) == Ok(MakeService(lines[1], lines[0], d, today))
  {
  }

  /** The service of one pureservers record. */
  function ServerService(server: ServerRecord, today: Date): Service
    requires IsValid(today)
  {
    MakeService(server.numId, server.primaryIpv4, server.expiresAt, today)
  }

  /** The services of a pureservers account, one per record in API order. */
  function ServerServices(servers: seq<ServerRecord>, today: Date): (r: seq<Service>)
    requires IsValid(today)
    ensures |r| == |servers|
    ensures forall i :: 0 <= i < |servers| ==> r[i] == ServerService(servers[i], today)
  {
    seq(|servers|, i requires 0 <= i < |servers| => ServerService(servers[i], today))
  }

  /** Items read in order: all their values, or the error of the first item
      that does not read. */
  function ParseAll<A, T>(items: seq<A>, read: A -> Result<T, string>): Result<seq<T>, string> {
    if items == [] then Ok([])
    else
      match read(items[0])
      case Err(e) => Err(e)
      case Ok(v) =>
        match ParseAll(items[1..], read)
        case Err(e) => Err(e)
        case Ok(rest) => Ok([v] + rest)
  }

  /** When every item reads, the result lists their values in item order. */
  lemma {:induction false} ParseAllOk<A, T>(items: seq<A>, read: A -> Result<T, string>, values: seq<T>)
    requires |values| == |items|
    requires forall j :: 0 <= j < |items| ==> read(items[j]) == Ok(values[j])
    ensures ParseAll(items, read) == Ok(values)
  {
    if items != [] {
      assert forall j :: 0 <= j < |items| - 1 ==> items[1..][j] == items[j + 1] && values[1..][j] == values[j + 1];
      ParseAllOk(items[1..], read, values[1..]);
      assert values == [values[0]] + values[1..];
    }
  }

  /** The first item that does not read decides the error, whatever follows it. */
  lemma {:induction false} ParseAllFirstError<A, T>(items: seq<A>, read: A -> Result<T, string>, k: nat)
    requires k < |items| && read(items[k]).Err?
    requires forall j :: 0 <= j < k ==> read(items[j]).Ok?
    ensures ParseAll(items, read) == Err(read(items[k]).error)
  {
    if k > 0 {
      assert forall j :: 0 <= j < k - 1 ==> items[1..][j] == items[j + 1];
      ParseAllFirstError(items[1..], read, k - 1);
    }
  }

  /** Each 62yun card read on its own, as of `today`. */
  function CardReader(today: Date): string -> Result<Service, string>
    requires IsValid(today)
  {
    card => ParseYunService(card, today)
  }

  /** Each pureservers record turned into its service, which cannot fail. */
  function ServerReader(today: Date): ServerRecord -> Result<Service, string>
    requires IsValid(today)
  {
    server => Ok(ServerService(server, today))
  }

  /** Collecting a pureservers account never fails and yields one service per record. */
  lemma ServersNeverFail(servers: seq<ServerRecord>, today: Date)
    requires IsValid(today)
    ensures ParseAll(servers, ServerReader(today)) == Ok(ServerServices(servers, today))
  {
    ParseAllOk(servers, ServerReader(today), ServerServices(servers, today));
  }

  /** The services the provider reports. */
  function ProviderServices(provider: Provider, today: Date): Result<seq<Service>, string>
    requires IsValid(today)
  {
    match provider
    case PureServers(servers) => Ok(ServerServices(servers, today))
    case Yun(cards) => ParseAll(cards, CardReader(today))
  }

  function Descriptions(services: seq<Service>): seq<string> {
    seq(|services|, i requires 0 <= i < |services| => services[i].description)
  }

  /** The collection loop of either provider: each record or card is turned
      into a service and appended, in order; an exception ends the collection. */
  method CollectServices<A>(records: seq<A>, read: A -> Result<Service, string>) returns (r: Result<seq<Service>, string>)
    ensures r == ParseAll(records, read)
  {
    var services: seq<Service> := [];
    for i := 0 to |records|
      invariant |services| == i
      invariant forall j :: 0 <= j < i ==> read(records[j]) == Ok(services[j])
    {
      var s := read(records[i]);
      if s.Err? {
        ParseAllFirstError(records, read, i);
        return Err(s.error);
      }
      services := services + [s.value];
    }
    ParseAllOk(records, read, services);
    r := Ok(services);
  }

  /** What the collection step yields: the provider's services with their
      descriptions joined by `"; "` in order, or the error that stopped it. */
  function Collected(provider: Provider, today: Date): (r: Result<ExpiryDates, string>)
    requires IsValid(today)
    ensures r.Ok? <==> ProviderServices(provider, today).Ok?
    ensures r.Err? ==> r.error == ProviderServices(provider, today).error
    ensures r.Ok? ==> r.value.services == ProviderServices(provider, today).value
    ensures r.Ok? ==> r.value.statusString == Join(Descriptions(r.value.services), "; ")
  {
    match ProviderServices(provider, today)
    case Err(e) => Err(e)
    case Ok(services) => Ok(ExpiryDates(services, Join(Descriptions(services), "; ")))
  }

  /**
   * `get_expiry_dates`: collects the services of the provider, then joins
   * their descriptions.
   */
  method GetExpiryDates(provider: Provider, today: Date) returns (r: Result<ExpiryDates, string>)
    requires IsValid(today)
    ensures r == Collected(provider, today)
  {
    var collected: Result<seq<Service>, string>;
    match provider {
      case PureServers(servers) =>
        collected := CollectServices(servers, ServerReader(today));
        ServersNeverFail(servers, today);
      case Yun(cards) =>
        collected := CollectServices(cards, CardReader(today));
    }
    if collected.Err? {
      return Err(collected.error);
    }
    r := Ok(ExpiryDates(collected.value, Join(Descriptions(collected.value), "; ")));
  }

  /** The fewest days left over a non-empty list of services. */
  function MinDaysLeft(services: seq<Service>): (m: int)
    requires |services| > 0
    ensures exists i :: 0 <= i < |services| && services[i].daysLeft == m
    ensures forall i :: 0 <= i < |services| ==> m <= services[i].daysLeft
  {
    if |services| == 1 then services[0].daysLeft
    else
      var rest := MinDaysLeft(services[1..]);
      assert forall i :: 1 <= i < |services| ==> services[i] == services[1..][i - 1];
      if services[0].daysLeft < rest then services[0].daysLeft else rest
  }

  /** The status before grading: UNKNOWN when the thresholds are inverted. */
  function InitialStatus(warningThreshold: int, criticalThreshold: int): int {
    if warningThreshold < criticalThreshold then StatusUnknown else StatusOk
  }

  /** The grade of the fewest days left: critical is checked first, both
      comparisons are strict, and otherwise the initial status stands. */
  function Classify(minDaysLeft: int, warningThreshold: int, criticalThreshold: int): int {
    if minDaysLeft < criticalThreshold then StatusCritical
    else if minDaysLeft < warningThreshold then StatusWarning
    else InitialStatus(warningThreshold, criticalThreshold)
  }

  /** The three grades, each with the exact condition that produces it. */
  lemma ClassifyCases(m: int, w: int, c: int)
    ensures Classify(m, w, c) == StatusCritical <==> m < c
    ensures Classify(m, w, c) == StatusWarning <==> c <= m < w
    ensures Classify(m, w, c) == StatusUnknown <==> w < c <= m
    ensures Classify(m, w, c) == StatusOk <==> c <= w <= m
  {
  }

  /** With sane thresholds fewer days left is never a milder status. */
  lemma ClassifyMonotone(m1: int, m2: int, w: int, c: int)
    requires c <= w && m1 <= m2
    ensures Classify(m1, w, c) >= Classify(m2, w, c)
    ensures StatusOk <= Classify(m2, w, c) <= StatusCritical
  {
  }

  /** The printed verdict: the wording depends on the sign of the days left. */
  function ExpiryMessage(minDaysLeft: int, statusString: string): string {
    if minDaysLeft < 0 then "Expired " + IntToString(-minDaysLeft) + " day(s) ago. " + statusString
    else "Expires in " + IntToString(minDaysLeft) + " day(s). " + statusString
  }

  /** The number of digits `w` starts with. */
  function LeadingDigits(w: string): (n: nat)
    ensures n <= |w|
  {
    if w == [] || !IsDigit(w[0]) then 0 else 1 + LeadingDigits(w[1..])
  }

  lemma {:induction false} LeadingDigitsOf(a: string, x: string)
    requires AllDigits(a) && x != [] && !IsDigit(x[0])
    ensures LeadingDigits(a + x) == |a|
  {
    if a == [] {
      assert a + x == x;
    } else {
      assert (a + x)[1..] == a[1..] + x;
      LeadingDigitsOf(a[1..], x);
    }
  }

  /** A run of digits followed by a non-digit splits the string in one way only. */
  lemma SplitAfterDigits(a: string, x: string, b: string, y: string)
    requires AllDigits(a) && AllDigits(b)
    requires x != [] && y != [] && !IsDigit(x[0]) && !IsDigit(y[0])
    requires a + x == b + y
    ensures a == b && x == y
  {
    LeadingDigitsOf(a, x);
    LeadingDigitsOf(b, y);
    assert a == (a + x)[..|a|];
    assert b == (b + y)[..|b|];
    assert x == (a + x)[|a|..];
    assert y == (b + y)[|b|..];
  }

  /** Between a fixed prefix and a fixed non-digit separator, a number and
      the text after the separator are both recoverable. */
  lemma FramedNumber(p: string, a1: string, a2: string, q: string, t1: string, t2: string)
    requires AllDigits(a1) && AllDigits(a2)
    requires q != [] && !IsDigit(q[0])
    requires p + a1 + q + t1 == p + a2 + q + t2
    ensures a1 == a2 && t1 == t2
  {
    var w := p + a1 + q + t1;
    assert w[|p|..] == a1 + (q + t1);
    assert w[|p|..] == a2 + (q + t2);
    SplitAfterDigits(a1, q + t1, a2, q + t2);
    assert t1 == (q + t1)[|q|..];
    assert t2 == (q + t2)[|q|..];
  }

  /** The seventh character of the message tells the two wordings apart. */
  lemma ExpiryMessageSign(m: int, s: string)
    ensures |ExpiryMessage(m, s)| > 6
    ensures ExpiryMessage(m, s)[6] == if m < 0 then 'd' else 's'
  {
    if m < 0 {
      CharOfPrefix("Expired ", IntToString(-m), " day(s) ago. ", s, 6);
    } else {
      CharOfPrefix("Expires in ", IntToString(m), " day(s). ", s, 6);
    }
  }

  lemma CharOfPrefix(p: string, x: string, y: string, t: string, k: nat)
    requires k < |p|
    ensures k < |p + x + y + t| && (p + x + y + t)[k] == p[k]
  {
  }

  /** The message determines both the days left and the service summary. */
  lemma ExpiryMessageInjective(m1: int, s1: string, m2: int, s2: string)
    requires ExpiryMessage(m1, s1) == ExpiryMessage(m2, s2)
    ensures m1 == m2 && s1 == s2
  {
    ExpiryMessageSign(m1, s1);
    ExpiryMessageSign(m2, s2);
    if m1 < 0 {
      FramedNumber("Expired ", NatToString(-m1), NatToString(-m2), " day(s) ago. ", s1, s2);
      NatToStringInjective(-m1, -m2);
    } else {
      FramedNumber("Expires in ", NatToString(m1), NatToString(m2), " day(s). ", s1, s2);
      NatToStringInjective(m1, m2);
    }
  }

  /** The lines printed before the collection starts. */
  function ThresholdWarning(warningThreshold: int, criticalThreshold: int): seq<string> {
    if warningThreshold < criticalThreshold then [MisconfiguredLine] else []
  }

  /**
   * The part of `main` after the collection: the first service's count starts
   * the minimum loop (an empty list raises `IndexError`), then the grade and
   * the message. Returns the grade and the message, or the error raised.
   */
  method Grade(dates: ExpiryDates, checkStatus: int, warningThreshold: int, criticalThreshold: int)
    returns (r: Result<(int, string), string>)
    requires checkStatus == InitialStatus(warningThreshold, criticalThreshold)
    ensures dates.services == [] ==> r == Err(IndexError)
    ensures dates.services != [] ==>
      r == Ok((Classify(MinDaysLeft(dates.services), warningThreshold, criticalThreshold),
               ExpiryMessage(MinDaysLeft(dates.services), dates.statusString)))
  {
    if |dates.services| == 0 {
      return Err(IndexError);
    }
    var minDaysLeft := FindMinDaysLeft(dates.services);
    var status := checkStatus;
    if minDaysLeft < criticalThreshold {
      status := StatusCritical;
    } else if minDaysLeft < warningThreshold {
      status := StatusWarning;
    }
    r := Ok((status, ExpiryMessage(minDaysLeft, dates.statusString)));
  }

  /**
   * `main`: the threshold sanity check, collecting the services and grading
   * them. Returns the status, or the error that escapes it, and the lines
   * printed on the way.
   */
  method MainBody(provider: Provider, today: Date, warningThreshold: int, criticalThreshold: int)
    returns (r: Result<int, string>, output: seq<string>)
    requires IsValid(today)
    ensures var warn := ThresholdWarning(warningThreshold, criticalThreshold);
      match Collected(provider, today)
      case Err(e) => r == Err(e) && output == warn
      case Ok(dates) =>
        if dates.services == [] then r == Err(IndexError) && output == warn
        else
          r == Ok(Classify(MinDaysLeft(dates.services), warningThreshold, criticalThreshold))
          && output == warn + [ExpiryMessage(MinDaysLeft(dates.services), dates.statusString)]
  {
    var checkStatus := StatusOk;
    output := [];
    if warningThreshold < criticalThreshold {
      checkStatus := StatusUnknown;
      output := [MisconfiguredLine];
    }
    var expiryDates := GetExpiryDates(provider, today);
    if expiryDates.Err? {
      return Err(expiryDates.error), output;
    }
    var graded := Grade(expiryDates.value, checkStatus, warningThreshold, criticalThreshold);
    if graded.Err? {
      return Err(graded.error), output;
    }
    r := Ok(graded.value.0);
    output := output + [graded.value.1];
  }

  /**
   * The whole probe: `main` under the top-level handler, which turns any
   * error into CRITICAL and an `"Unhandled exception: ..."` line. Returns the
   * exit code and the lines printed.
   */
  method CheckExpiry(provider: Provider, today: Date, warningThreshold: int, criticalThreshold: int)
    returns (exitCode: int, output: seq<string>)
    requires IsValid(today)
    ensures var warn := ThresholdWarning(warningThreshold, criticalThreshold);
      match Collected(provider, today)
      case Err(e) =>
        exitCode == StatusCritical && output == warn + ["Unhandled exception: " + e]
      case Ok(dates) =>
        if dates.services == [] then
          exitCode == StatusCritical && output == warn + ["Unhandled exception: " + IndexError]
        else
          exitCode == Classify(MinDaysLeft(dates.services), warningThreshold, criticalThreshold)
          && output == warn + [ExpiryMessage(MinDaysLeft(dates.services), dates.statusString)]
  {
    var r;
    r, output := MainBody(provider, today, warningThreshold, criticalThreshold);
    if r.Err? {
      exitCode := StatusCritical;
      output := output + ["Unhandled exception: " + r.error];
    } else {
      exitCode := r.value;
    }
  }

  /** The minimum loop: start from the first service and keep any smaller count. */
  method FindMinDaysLeft(services: seq<Service>) returns (m: int)
    requires |services| > 0
    ensures m == MinDaysLeft(services)
  {
    m := services[0].daysLeft;
    for i := 0 to |services|
      invariant exists j :: 0 <= j < |services| && services[j].daysLeft == m
      invariant forall j :: 0 <= j < i ==> m <= services[j].daysLeft
      invariant i == 0 ==> m == services[0].daysLeft
    {
      if services[i].daysLeft < m {
        m := services[i].daysLeft;
      }
    }
    MinIsUnique(services, m);
  }

  /** A value that occurs in the list and bounds it from below is its minimum. */
  lemma MinIsUnique(services: seq<Service>, m: int)
    requires |services| > 0
    requires exists j :: 0 <= j < |services| && services[j].daysLeft == m
    requires forall j :: 0 <= j < |services| ==> m <= services[j].daysLeft
    ensures m == MinDaysLeft(services)
  {
  }
}

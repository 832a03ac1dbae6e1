/**
 * request.py: choosing and naming the SINAPI reference table to download.
 *
 * The HTTP session, the archive on disk and its extraction are not modelled:
 * each attempt's result is given by `server`, a function from the URL to the
 * attempt's `Outcome`.  The current month is a parameter (`today`), and the
 * user's answers are a sequence of input lines.
 */
module Request {
  import opened Wrappers
  import opened Text
  import opened Numbers
  import opened Prompts

  // ---------------------------------------------------------------------------
  // get_date (request.py:138-140)
  // ---------------------------------------------------------------------------

  /** The year and month of a date; the day plays no part in `get_date`. */
  datatype YearMonth = YearMonth(year: int, month: int)

  predicate ValidMonth(ym: YearMonth) {
    1 <= ym.month <= 12
  }

  /** Months counted from January of year 0: consecutive months have consecutive indexes. */
  function MonthIndex(ym: YearMonth): int {
    ym.year * 12 + (ym.month - 1)
  }

  /** `date - relativedelta(months=n)`, as far as year and month go. */
  function MonthsBefore(ym: YearMonth, n: nat): (r: YearMonth)
    ensures ValidMonth(r)
    ensures ValidMonth(ym) ==> MonthIndex(r) == MonthIndex(ym) - n
  {
    var k := MonthIndex(ym) - n;
    YearMonth(k / 12, k % 12 + 1)
  }

  /** One month back is the previous month of the same year, or December of the previous year from January. */
  lemma OneMonthBefore(ym: YearMonth)
    requires ValidMonth(ym)
    ensures MonthsBefore(ym, 1) == if ym.month == 1 then YearMonth(ym.year - 1, 12) else YearMonth(ym.year, ym.month - 1)
  {
    var r := MonthsBefore(ym, 1);
    var expected := if ym.month == 1 then YearMonth(ym.year - 1, 12) else YearMonth(ym.year, ym.month - 1);
    assert MonthIndex(expected) == MonthIndex(ym) - 1;
    MonthIndexInjective(r, expected);
  }

  /** A valid year-month is determined by its index. */
  lemma MonthIndexInjective(a: YearMonth, b: YearMonth)
    requires ValidMonth(a) && ValidMonth(b) && MonthIndex(a) == MonthIndex(b)
    ensures a == b
  {
  }

  /** `n` decimal digits of `d`, with leading zeros. */
  function PaddedDigits(d: nat, width: nat): (s: string)
    requires d < Pow10(width)
    ensures |s| == width && AllDigits(s) && DigitsValue(s) == d
  {
    if width == 0 then ""
    else
      var s := PaddedDigits(d / 10, width - 1) + [DigitChar(d % 10)];
      assert s[..|s| - 1] == PaddedDigits(d / 10, width - 1);
      s
  }

  /**
   * `strftime('%Y%m')`: four digits of year, then two digits of month.  The
   * year is within datetime's range, 1 to 9999.
   */
  function FormatYearMonth(ym: YearMonth): (s: string)
    requires ValidMonth(ym) && 1 <= ym.year <= 9999
    ensures |s| == 6 && AllDigits(s)
    ensures DigitsValue(s[..4]) == ym.year && DigitsValue(s[4..]) == ym.month
  {
    var y, m := PaddedDigits(ym.year, 4), PaddedDigits(ym.month, 2);
    assert (y + m)[..4] == y && (y + m)[4..] == m;
    y + m
  }

  /** `get_date(n)`: the year-month `n` months before `today`, as YYYYMM. */
  function GetDate(today: YearMonth, n: nat): (r: string)
    requires ValidMonth(today) && 1 <= MonthsBefore(today, n).year <= 9999
    ensures |r| == 6 && AllDigits(r) && 1 <= DigitsValue(r[4..]) <= 12
    ensures MonthIndex(YearMonth(DigitsValue(r[..4]), DigitsValue(r[4..]))) == MonthIndex(today) - n
  {
    FormatYearMonth(MonthsBefore(today, n))
  }

  /** Different months have different YYYYMM texts. */
  lemma FormatYearMonthInjective(a: YearMonth, b: YearMonth)
    requires ValidMonth(a) && 1 <= a.year <= 9999 && ValidMonth(b) && 1 <= b.year <= 9999
    requires FormatYearMonth(a) == FormatYearMonth(b)
    ensures a == b
  {
  }

  /** The two attempts ask for different months: one and two months before `today`. */
  lemma AttemptDates(today: YearMonth)
    requires AttemptDateValid(today, 1) && AttemptDateValid(today, 2)
    ensures MonthIndex(MonthsBefore(today, 1)) == MonthIndex(today) - 1
    ensures MonthIndex(MonthsBefore(today, 2)) == MonthIndex(today) - 2
    ensures GetDate(today, 1) != GetDate(today, 2)
  {
    var a, b := MonthsBefore(today, 1), MonthsBefore(today, 2);
    if GetDate(today, 1) == GetDate(today, 2) {
      FormatYearMonthInjective(a, b);
    }
  }

  // ---------------------------------------------------------------------------
  // get_desonerado (request.py:125-135)
  // ---------------------------------------------------------------------------

  /** Whether the table prices labour with payroll tax relief ("Desonerado") or without. */
  datatype Regime = Desonerado | NaoDesonerado

  /** The regime as it appears in SINAPI file names. */
  function RegimeName(regime: Regime): string
  {
    match regime
    case Desonerado => "Desonerado"
    case NaoDesonerado => "NaoDesonerado"
  }

  /** The answers `get_desonerado` accepts, once stripped and lower-cased. */
  const RegimeAnswers: seq<string> := ["y", "yes", "n", "no"]

  /**
   * One answer to "Desonerado? y or n": stripped and lower-cased, "y"/"yes"
   * or "n"/"no"; anything else is invalid.  Case and surrounding white space
   * play no part, and the answer's first letter decides the regime.
   */
  function Answer(line: string): (r: Option<Regime>)
    ensures r.Some? <==> Lower(Strip(line)) in RegimeAnswers
    ensures r.Some? ==> (r.value == Desonerado <==> LowerChar(Strip(line)[0]) == 'y')
  {
    RegimeOf(Lower(Strip(line)))
  }

  /** The regime a normalised answer names: "y"/"yes" or "n"/"no". */
  function RegimeOf(a: string): (r: Option<Regime>)
    ensures r.Some? <==> a in RegimeAnswers
    ensures r.Some? ==> (r.value == Desonerado <==> a[0] == 'y')
  {
    if a == "y" || a == "yes" then Some(Desonerado)
    else if a == "n" || a == "no" then Some(NaoDesonerado)
    else None
  }

  /** `get_desonerado`'s result text: "Desonerado" for "y"/"yes", "NaoDesonerado" for "n"/"no", and the two differ. */
  lemma RegimeNameOfAnswer(a: string)
    requires RegimeOf(a).Some?
    ensures RegimeName(RegimeOf(a).value) == "Desonerado" <==> a == "y" || a == "yes"
    ensures RegimeName(RegimeOf(a).value) == "NaoDesonerado" <==> a == "n" || a == "no"
  {
  }

  /**
   * The reprompt loop of `get_desonerado`: the regime of the first valid
   * answer, with the number of lines read; every earlier line was invalid.
   */
  function GetDesonerado(inputs: seq<string>): (r: Option<(Regime, nat)>)
    ensures r.Some? ==> 0 < r.value.1 <= |inputs| && Answer(inputs[r.value.1 - 1]) == Some(r.value.0)
    ensures r.Some? ==> forall j :: 0 <= j < r.value.1 - 1 ==> Answer(inputs[j]).None?
    ensures r.None? <==> forall j :: 0 <= j < |inputs| ==> Answer(inputs[j]).None?
  {
    FirstAccepted(inputs, Answer)
  }

  /** Lower-casing keeps text stripped: case mapping never touches white space. */
  lemma LowerStripped(s: string)
    requires IsStripped(s)
    ensures IsStripped(Lower(s))
  {
  }

  /** An answer that is already normalised is read the same way: normalising twice changes nothing. */
  lemma AnswerNormalised(line: string)
    ensures Answer(Lower(Strip(line))) == Answer(line)
  {
    NormalisedAnswer(line);
  }

  /** Stripping and lower-casing an answer a second time changes nothing. */
  lemma NormalisedAnswer(line: string)
    ensures Lower(Strip(Lower(Strip(line)))) == Lower(Strip(line))
  {
    var a := Lower(Strip(line));
    LowerStripped(Strip(line));
    StripStripped(a);
    var b := Lower(a);
    assert forall i :: 0 <= i < |a| ==> b[i] == a[i];
    assert b == a;
  }

  // ---------------------------------------------------------------------------
  // get_state (request.py:77-122)
  // ---------------------------------------------------------------------------

  /** The states of Brazil with their abbreviations, in the order `get_state` searches them. */
  const States: seq<(string, string)> := [
    ("Acre", "AC"), ("Alagoas", "AL"), ("Amapa", "AP"), ("Amazonas", "AM"),
    ("Bahia", "BA"), ("Ceara", "CE"), ("Distrito Federal", "DF"), ("Espirito Santo", "ES"),
    ("Goias", "GO"), ("Maranhao", "MA"), ("Mato Grosso", "MT"), ("Mato Grosso do Sul", "MS"),
    ("Minas Gerais", "MG"), ("Para", "PA"), ("Paraiba", "PB"), ("Parana", "PR"),
    ("Pernambuco", "PE"), ("Piaui", "PI"), ("Rio de Janeiro", "RJ"), ("Rio Grande do Norte", "RN"),
    ("Rio Grande do Sul", "RS"), ("Rondonia", "RO"), ("Roraima", "RR"), ("Santa Catarina", "SC"),
    ("Sao Paulo", "SP"), ("Sergipe", "SE"), ("Tocantins", "TO")
  ]

  /** The codes `get_state` can return: the lower-cased abbreviations. */
  predicate IsStateCode(code: string) {
    exists i :: 0 <= i < |States| && code == Lower(States[i].1)
  }

  /** How `get_state` normalises an answer: upper-case when it is two characters long, title-case otherwise. */
  function NormaliseState(line: string): (r: string)
    ensures |r| == |line| && Lower(r) == Lower(line)
    ensures |line| == 2 ==> !IsLowerAscii(r[0]) && !IsLowerAscii(r[1])
  {
    if |line| == 2 then
      LowerUpper(line);
      Upper(line)
    else
      LowerTitle(line);
      Title(line)
  }

  /** `user_state in state`: the normalised answer equals the entry's name or its abbreviation. */
  predicate EntryMatches(answer: string, entry: (string, string))
    ensures EntryMatches(answer, entry) ==> EntryMatchesCaseless(answer, entry)
  {
    answer == entry.0 || answer == entry.1
  }

  /** The scan over `States` from index `k`: the first matching entry's lower-cased abbreviation. */
  function FindState(answer: string, k: nat): (r: Option<string>)
    requires k <= |States|
    ensures r.Some? ==> exists i :: k <= i < |States| && EntryMatches(answer, States[i]) && r.value == Lower(States[i].1)
    ensures r.None? <==> forall i :: k <= i < |States| ==> !EntryMatches(answer, States[i])
    decreases |States| - k
  {
    if k == |States| then None
    else if EntryMatches(answer, States[k]) then Some(Lower(States[k].1))
    else FindState(answer, k + 1)
  }

  /** One answer to "Enter your state": the code it selects, if any. */
  function StateOf(line: string): (r: Option<string>)
    ensures r.Some? ==> IsStateCode(r.value)
  {
    FindState(NormaliseState(line), 0)
  }


  /**
   * Title-casing never leaves a letter lower-case right after a character
   * that is not a letter: "de" and "do" after a space come out as "De" and
   * "Do".
   */
  lemma TitleAfterUncased(s: string, i: nat)
    requires 0 < i < |s| && !IsCased(s[i - 1])
    ensures !IsLowerAscii(Title(s)[i])
  {
  }

  /**
   * The names "Rio de Janeiro", "Mato Grosso do Sul", "Rio Grande do Norte"
   * and "Rio Grande do Sul" never equal a normalised answer: whatever the
   * user types, the lower-case "d" after a space is upper-cased (and a
   * two-character answer is too short).
   */
  lemma NamesWithParticleUnreachable(line: string)
    ensures NormaliseState(line) != States[18].0
    ensures NormaliseState(line) != States[11].0
    ensures NormaliseState(line) != States[19].0
    ensures NormaliseState(line) != States[20].0
  {
    var t := NormaliseState(line);
    if |line| != 2 {
      assert t == Title(line);
      TitleMissesParticle(line, States[18].0, 4);
      TitleMissesParticle(line, States[11].0, 12);
      TitleMissesParticle(line, States[19].0, 11);
      TitleMissesParticle(line, States[20].0, 11);
    }
  }

  /** A name with a lower-case "d" right after a space is never the title-cased form of any text. */
  lemma TitleMissesParticle(line: string, name: string, i: nat)
    requires 0 < i < |name| && name[i - 1] == ' ' && name[i] == 'd'
    ensures Title(line) != name
  {
    var t := Title(line);
    if |line| == |name| {
      if line[i - 1] == ' ' {
        TitleAfterUncased(line, i);
      } else if i - 1 > 0 {
        assert t[i - 1] == if IsCased(line[i - 2]) then LowerChar(line[i - 1]) else UpperChar(line[i - 1]);
      } else {
        assert t[0] == UpperChar(line[0]);
      }
    }
  }

  /**
   * The corrected lookup: the answer matches an entry when it equals the
   * entry's name or abbreviation up to case, so every name selects its own
   * state.
   */
  predicate EntryMatchesCaseless(line: string, entry: (string, string)) {
    Lower(line) == Lower(entry.0) || Lower(line) == Lower(entry.1)
  }

  /** The corrected scan over `entries`: the lower-cased abbreviation of the first entry matching up to case. */
  function FindStateCaseless(line: string, entries: seq<(string, string)>): (r: Option<string>)
    ensures r.Some? ==> exists i :: 0 <= i < |entries| && EntryMatchesCaseless(line, entries[i]) && r.value == Lower(entries[i].1)
    ensures r.None? <==> forall i :: 0 <= i < |entries| ==> !EntryMatchesCaseless(line, entries[i])
  {
    if entries == [] then None
    else if EntryMatchesCaseless(line, entries[0]) then Some(Lower(entries[0].1))
    else
      assert forall i :: 1 <= i < |entries| ==> entries[i] == entries[1..][i - 1];
      FindStateCaseless(line, entries[1..])
  }

  /** The corrected `get_state` answer: the code of the first entry whose name or abbreviation matches up to case. */
  function StateOfCaseless(line: string): (r: Option<string>)
    ensures r.Some? ==> IsStateCode(r.value)
  {
    FindStateCaseless(line, States)
  }

  /** Every answer the lookup as written accepts, the corrected lookup accepts too. */
  lemma CaselessAcceptsMore(line: string)
    requires StateOf(line).Some?
    ensures StateOfCaseless(line).Some?
  {
    var t := NormaliseState(line);
    var i :| 0 <= i < |States| && EntryMatches(t, States[i]) && StateOf(line).value == Lower(States[i].1);
    if |line| == 2 {
      LowerUpper(line);
    } else {
      LowerTitle(line);
    }
    assert Lower(t) == Lower(line);
    assert EntryMatchesCaseless(line, States[i]);
  }

  /**
   * The reprompt loop of `get_state`, with the corrected lookup: the code
   * selected by the first answer that selects one, with the number of lines
   * read.  The code is always one of the 27 listed.
   */
  function GetState(inputs: seq<string>): (r: Option<(string, nat)>)
    ensures r.Some? ==> IsStateCode(r.value.0)
  {
    FirstAccepted(inputs, StateOfCaseless)
  }

  /**
   * With the corrected lookup every state's name selects a state: the
   * intended behaviour of request.py:113-120, which the title-casing there
   * misses for four names.
   */
  lemma EveryNameSelects(i: nat)
    requires i < |States|
    ensures StateOfCaseless(States[i].0).Some?
  {
    assert EntryMatchesCaseless(States[i].0, States[i]);
  }

  // ---------------------------------------------------------------------------
  // download_sinapi_table (request.py:10-74)
  // ---------------------------------------------------------------------------

  /** The URL of the archive for `state` (a lower-case code), `date` (YYYYMM) and `regime`. */
  function Url(state: string, date: string, regime: Regime): (r: string)
    ensures |UrlPrefix(state)| + |date| <= |r| && r[|UrlPrefix(state)|..|UrlPrefix(state)| + |date|] == date
  {
    var p, rest := UrlPrefix(state), "_" + RegimeName(regime) + ".zip";
    assert (p + date + rest)[|p|..|p| + |date|] == date;
    assert (p + date + rest)[..|p|] == p;
    assert (p + date + rest)[|p + date + rest| - 4..] == ".zip";
    p + date + rest
  }

  /** Everything in the URL before the date. */
  function UrlPrefix(state: string): string {
    "https://www.caixa.gov.br/Downloads/sinapi-a-partir-jul-2009-" + state
      + "/SINAPI_ref_Insumos_Composicoes_" + Upper(state) + "_"
  }

  /** The two attempts request different URLs, since they ask for different months. */
  lemma AttemptUrlsDiffer(state: string, regime: Regime, today: YearMonth)
    requires AttemptDateValid(today, 1) && AttemptDateValid(today, 2)
    ensures Url(state, GetDate(today, 1), regime) != Url(state, GetDate(today, 2), regime)
  {
    var d1, d2 := GetDate(today, 1), GetDate(today, 2);
    AttemptDates(today);
  }

  /** The spreadsheet taken from the archive, named after the same state, month and regime. */
  function WantedFileName(state: string, date: string, regime: Regime): (r: string)
    ensures StartsWith(r, SheetPrefix(state)) && EndsWith(r, ".xlsx")
    ensures |SheetPrefix(state)| + |date| <= |r| && r[|SheetPrefix(state)|..|SheetPrefix(state)| + |date|] == date
  {
    var p, rest := SheetPrefix(state), "_" + RegimeName(regime) + ".xlsx";
    assert (p + date + rest)[|p|..|p| + |date|] == date;
    assert (p + date + rest)[..|p|] == p;
    assert (p + date + rest)[|p + date + rest| - 5..] == ".xlsx";
    p + date + rest
  }

  /** Everything in the spreadsheet's name before the date. */
  function SheetPrefix(state: string): string {
    "SINAPI_Custo_Ref_Composicoes_Sintetico_" + state + "_"
  }

  /**
   * What one download attempt ends in: status 200 and an archive that
   * extracts, another status, or one of the three exceptions the loop catches.
   */
  datatype Outcome = Ok200 | Non200 | BadZip | RequestFailed | OtherError

  /** An outcome after which the loop tries the previous month. */
  predicate Retries(outcome: Outcome) {
    outcome.BadZip? || outcome.RequestFailed? || outcome.OtherError?
  }

  /**
   * The attempt loop of `download_sinapi_table`: tries the month before
   * `today`, then the month before that.  A status other than 200 ends the
   * routine at once; an exception moves to the previous month, at most once.
   * Returns the spreadsheet's name (for the month that succeeded) and the URLs
   * requested, in order.
   */
  method DownloadSinapiTable(state: string, regime: Regime, today: YearMonth, server: string -> Outcome)
    returns (name: Option<string>, requested: seq<string>)
    requires AttemptDateValid(today, 1) && AttemptDateValid(today, 2)
    ensures 1 <= |requested| <= 2
    ensures requested[0] == Url(state, GetDate(today, 1), regime)
    ensures |requested| == 2 ==> requested[1] == Url(state, GetDate(today, 2), regime)
    ensures |requested| == 2 <==> Retries(server(requested[0]))
    ensures name.Some? <==> LastSucceeded(server, requested)
    ensures name.Some? ==> name.value == WantedFileName(state, AttemptDate(today, |requested|), regime)
  {
    var monthCount: nat := 1;
    var date := "";
    requested := [];
    while true
      invariant 1 <= monthCount <= 2 && |requested| == monthCount - 1
      invariant |requested| == 1 ==> requested[0] == Url(state, GetDate(today, 1), regime) && Retries(server(requested[0]))
      decreases 2 - monthCount
    {
      date := GetDate(today, monthCount);
      var url := Url(state, date, regime);
      requested := requested + [url];
      assert |requested| == monthCount && requested[monthCount - 1] == url;
      var outcome := server(url);
      if outcome.Non200? {
        // "Failed to download file. HTTP Status Code: ..."
        assert !LastSucceeded(server, requested);
        return None, requested;
      }
      if outcome.Ok200? {
        assert LastSucceeded(server, requested);
        break;
      }
      // "... Retrying with an earlier month."
      monthCount := monthCount + 1;
      if monthCount > 2 {
        // "Failed to download a valid zip file after multiple attempts."
        return None, requested;
      }
    }
    name := Some(WantedFileName(state, date, regime));
  }

  /**
   * The two answers `download_sinapi_table` asks for, from the same input
   * lines: the state first, then the regime from the lines after it.  `None`
   * when the lines run out before both are given.
   */
  function Answers(inputs: seq<string>): (r: Option<(string, Regime)>)
    ensures r.Some? ==> IsStateCode(r.value.0)
    ensures r.None? <==> GetState(inputs).None? || GetDesonerado(inputs[GetState(inputs).value.1..]).None?
  {
    match GetState(inputs)
    case None => None
    case Some((state, used)) =>
      match GetDesonerado(inputs[used..])
      case None => None
      case Some((regime, _)) => Some((state, regime))
  }

  /**
   * `download_sinapi_table` as a whole: the two answers, then the download
   * loop.  When the answers are missing, nothing is requested.
   */
  method DownloadWithAnswers(inputs: seq<string>, today: YearMonth, server: string -> Outcome)
    returns (name: Option<string>, requested: seq<string>)
    requires AttemptDateValid(today, 1) && AttemptDateValid(today, 2)
    ensures |requested| <= 2
    ensures requested == [] <==> Answers(inputs).None?
    ensures requested != [] ==>
      requested[0] == Url(Answers(inputs).value.0, GetDate(today, 1), Answers(inputs).value.1)
    ensures name.Some? <==> LastSucceeded(server, requested)
    ensures name.Some? ==>
      name.value == WantedFileName(Answers(inputs).value.0, AttemptDate(today, |requested|), Answers(inputs).value.1)
  {
    var answers := Answers(inputs);
    if answers.None? {
      return None, [];
    }
    name, requested := DownloadSinapiTable(answers.value.0, answers.value.1, today, server);
  }

  /** The last URL requested got status 200 and a valid archive. */
  predicate LastSucceeded(server: string -> Outcome, requested: seq<string>) {
    requested != [] && server(requested[|requested| - 1]) == Ok200
  }

  /** The months the download loop may ask for are within datetime's range. */
  predicate AttemptDateValid(today: YearMonth, n: nat) {
    ValidMonth(today) && 1 <= MonthsBefore(today, n).year <= 9999
  }

  /** The date of attempt `k` (1 or 2) of the download loop. */
  function AttemptDate(today: YearMonth, k: nat): string
    requires AttemptDateValid(today, 1) && AttemptDateValid(today, 2) && 1 <= k <= 2
  {
    if k == 1 then GetDate(today, 1) else GetDate(today, 2)
  }
}

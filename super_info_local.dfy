/**
 * The local API server's `/api/super-info` handler (api/super-info-local.js):
 * it looks a country up, reads a few fields of the record defensively,
 * then asks four more services in turn (weather at the capital, a trivia
 * fact, a dictionary entry for a word drawn from a fixed list, USD exchange
 * rates) and assembles one JSON answer.
 *
 * Every upstream request goes through `fetchWithRetry`. Here an upstream is
 * a function from the attempt index to that attempt's outcome, so the model
 * says which attempts are made and what is returned without any network;
 * the pause between attempts is recorded, not slept.
 */
module SuperInfoLocal {
  import opened Wrappers

  /** `fetchWithRetry`'s default number of attempts and pause (milliseconds). */
  const DefaultRetries: int := 3
  const DefaultDelay: int := 1000

  /** The outcome of one HTTP attempt: a response, or the error the request threw. */
  datatype Attempt<R, E> = Success(response: R) | Failure(error: E)

  /**
   * How `fetchWithRetry` settles: with a response, by throwing an error, or
   * (when the loop makes no attempt at all) by returning `undefined`.
   */
  datatype Fetched<R, E> = Resolved(response: R) | Rejected(error: E) | Undefined

  // ---------------------------------------------------------------------------
  // fetchWithRetry
  // ---------------------------------------------------------------------------

  /**
   * How the attempts from index `i` on settle when `n` attempts are allowed:
   * the first success, or else the failure of attempt `n - 1`.
   */
  function SettleFrom<R, E>(attempt: nat -> Attempt<R, E>, i: nat, n: int): Fetched<R, E>
    requires i < n
    decreases n - i
  {
    match attempt(i)
    case Success(response) => Resolved(response)
    case Failure(error) => if i == n - 1 then Rejected(error) else SettleFrom(attempt, i + 1, n)
  }

  /** The reference result of `n` attempts: `undefined` when `n <= 0`, else as SettleFrom from attempt 0. */
  function Settle<R, E>(attempt: nat -> Attempt<R, E>, n: int): Fetched<R, E> {
    if n <= 0 then Undefined else SettleFrom(attempt, 0, n)
  }

  lemma {:induction false} SettleFromSuccess<R, E>(attempt: nat -> Attempt<R, E>, i: nat, j: nat, n: int)
    requires i <= j < n && attempt(j).Success?
    requires forall k :: i <= k < j ==> attempt(k).Failure?
    ensures SettleFrom(attempt, i, n) == Resolved(attempt(j).response)
    decreases j - i
  {
    if i < j {
      SettleFromSuccess(attempt, i + 1, j, n);
    }
  }

  lemma {:induction false} SettleFromFailure<R, E>(attempt: nat -> Attempt<R, E>, i: nat, n: int)
    requires i < n
    requires forall k :: i <= k < n ==> attempt(k).Failure?
    ensures SettleFrom(attempt, i, n) == Rejected(attempt(n - 1).error)
    decreases n - i
  {
    if i < n - 1 {
      SettleFromFailure(attempt, i + 1, n);
    }
  }

  /** The first successful attempt within the bound, after failures only, decides the result. */
  lemma SettleFirstSuccess<R, E>(attempt: nat -> Attempt<R, E>, j: nat, n: int)
    requires j < n && attempt(j).Success?
    requires forall k :: 0 <= k < j ==> attempt(k).Failure?
    ensures Settle(attempt, n) == Resolved(attempt(j).response)
  {
    SettleFromSuccess(attempt, 0, j, n);
  }

  /** When every attempt within the bound fails, the last attempt's error is the result. */
  lemma SettleAllFail<R, E>(attempt: nat -> Attempt<R, E>, n: int)
    requires 0 < n
    requires forall k :: 0 <= k < n ==> attempt(k).Failure?
    ensures Settle(attempt, n) == Rejected(attempt(n - 1).error)
  {
    SettleFromFailure(attempt, 0, n);
  }

  /**
   * At most `retries` attempts, stopping at the first success. When every
   * attempt fails, the last attempt's error is thrown and the earlier ones
   * are dropped. The same `delay` is waited after each failed attempt except
   * the last; `made` counts the attempts and `waits` lists the pauses.
   */
  method FetchWithRetry<R, E>(attempt: nat -> Attempt<R, E>, retries: int, delay: int)
    returns (result: Fetched<R, E>, made: nat, waits: seq<int>)
    ensures result == Settle(attempt, retries)
    ensures made <= if retries < 0 then 0 else retries
    ensures result.Undefined? <==> retries <= 0
    ensures result.Undefined? ==> made == 0
    ensures forall j :: 0 <= j < made - 1 ==> attempt(j).Failure?
    ensures result.Resolved? ==> 0 < made && attempt(made - 1) == Success(result.response)
    ensures result.Rejected? ==> 0 < made == retries && attempt(made - 1) == Failure(result.error)
    ensures result.Resolved? <==> exists j :: 0 <= j < retries && attempt(j).Success?
    ensures |waits| == if made == 0 then 0 else made - 1
    ensures forall w :: w in waits ==> w == delay
  {
    result, made, waits := Undefined, 0, [];
    var i := 0;
    while i < retries
      invariant 0 <= i && made == i
      invariant if retries <= 0 then i == 0 else i < retries
      invariant forall j :: 0 <= j < i ==> attempt(j).Failure?
      invariant |waits| == i
      invariant forall w :: w in waits ==> w == delay
      invariant result.Undefined?
      invariant 0 < retries ==> Settle(attempt, retries) == SettleFrom(attempt, i, retries)
    {
      made := made + 1;
      match attempt(i) {
        case Success(response) =>
          result := Resolved(response);
          return;
        case Failure(error) =>
          if i == retries - 1 {
            result := Rejected(error);
            return;
          }
      }
      waits := waits + [delay];
      i := i + 1;
    }
  }

  /**
   * `fetchWithRetry(url)` with its default arguments, as the handler calls
   * it: one to three attempts, and a result that is never `undefined`; an
   * upstream that answers at once is asked once.
   */
  method FetchWithDefaults<R, E>(attempt: nat -> Attempt<R, E>) returns (result: Fetched<R, E>, made: nat)
    ensures result == Settle(attempt, DefaultRetries)
    ensures 1 <= made <= DefaultRetries
    ensures !result.Undefined?
    ensures result.Resolved? ==> attempt(made - 1) == Success(result.response)
    ensures result.Rejected? ==> attempt(DefaultRetries - 1) == Failure(result.error)
    ensures attempt(0).Success? ==> made == 1 && result == Resolved(attempt(0).response)
  {
    var waits;
    result, made, waits := FetchWithRetry(attempt, DefaultRetries, DefaultDelay);
  }

  // ---------------------------------------------------------------------------
  // The country record and the defensive reads
  // ---------------------------------------------------------------------------

  datatype CapitalInfo = CapitalInfo(latlng: Option<seq<real>>)

  datatype Flags = Flags(png: Option<string>)

  /**
   * The fields of a country record that the handler reads. `currencies` is
   * the list of the currency table's keys in their order; a missing field is
   * `None`.
   */
  datatype Country = Country(
    commonName: string,
    population: int,
    capital: Option<seq<string>>,
    capitalInfo: Option<CapitalInfo>,
    flags: Option<Flags>,
    currencies: Option<seq<string>>)

  /** What the handler takes from the record, every field with its fallback applied. */
  datatype Extracted = Extracted(capital: string, lat: real, lon: real, flag: string, currencyCode: string)

  /** `s?.[i]`: the element at `i` of a list that may be missing or too short. */
  function At<T>(s: Option<seq<T>>, i: nat): (r: Option<T>)
    ensures r.Some? <==> s.Some? && i < |s.value|
    ensures r.Some? ==> r.value == s.value[i]
  {
    if s.Some? && i < |s.value| then Some(s.value[i]) else None
  }

  /** `s || fallback` for a string that may be missing; the empty string is falsy too. */
  function OrString(s: Option<string>, fallback: string): (r: string)
    ensures s.Some? && s.value != "" ==> r == s.value
    ensures s.None? || s.value == "" ==> r == fallback
    ensures fallback != "" ==> r != ""
  {
    if s.Some? && s.value != "" then s.value else fallback
  }

  /** `x || 0` for a number that may be missing (a present 0 gives 0 as well). */
  function OrZero(x: Option<real>): (r: real)
    ensures x.Some? ==> r == x.value
    ensures x.None? ==> r == 0.0
  {
    if x.Some? then x.value else 0.0
  }

  /** `countryData.capitalInfo?.latlng` */
  function LatLng(c: Country): (r: Option<seq<real>>)
    ensures r.Some? <==> c.capitalInfo.Some? && c.capitalInfo.value.latlng.Some?
    ensures r.Some? ==> r == c.capitalInfo.value.latlng
  {
    if c.capitalInfo.Some? then c.capitalInfo.value.latlng else None
  }

  /** `countryData.flags?.png` */
  function FlagPng(c: Country): (r: Option<string>)
    ensures r.Some? <==> c.flags.Some? && c.flags.value.png.Some?
    ensures r.Some? ==> r == c.flags.value.png
  {
    if c.flags.Some? then c.flags.value.png else None
  }

  /**
   * The defensive reads: first capital or "N/A", the capital's coordinates
   * or 0, the PNG flag or "", the first currency code or "USD". Capital and
   * currency code are never empty.
   */
  function Extract(c: Country): (x: Extracted)
    ensures x.capital != "" && x.currencyCode != ""
    ensures At(c.capital, 0).Some? && At(c.capital, 0).value != "" ==> x.capital == At(c.capital, 0).value
    ensures At(c.capital, 0).None? || At(c.capital, 0).value == "" ==> x.capital == "N/A"
    ensures At(LatLng(c), 0).Some? ==> x.lat == At(LatLng(c), 0).value
    ensures At(LatLng(c), 0).None? ==> x.lat == 0.0
    ensures At(LatLng(c), 1).Some? ==> x.lon == At(LatLng(c), 1).value
    ensures At(LatLng(c), 1).None? ==> x.lon == 0.0
    ensures FlagPng(c).Some? && FlagPng(c).value != "" ==> x.flag == FlagPng(c).value
    ensures FlagPng(c).None? || FlagPng(c).value == "" ==> x.flag == ""
    ensures At(c.currencies, 0).Some? && At(c.currencies, 0).value != "" ==> x.currencyCode == At(c.currencies, 0).value
    ensures At(c.currencies, 0).None? || At(c.currencies, 0).value == "" ==> x.currencyCode == "USD"
  {
    Extracted(
      OrString(At(c.capital, 0), "N/A"),
      OrZero(At(LatLng(c), 0)),
      OrZero(At(LatLng(c), 1)),
      OrString(FlagPng(c), ""),
      OrString(At(c.currencies, 0), "USD"))
  }

  /** A record with every optional field missing (or empty) gets every fallback. */
  lemma ExtractBare(c: Country)
    requires c.capital.None? || c.capital == Some([])
    requires c.capitalInfo.None? || c.capitalInfo.value.latlng.None?
    requires c.flags.None? || c.flags.value.png.None?
    requires c.currencies.None? || c.currencies == Some([])
    ensures Extract(c) == Extracted("N/A", 0.0, 0.0, "", "USD")
  {
  }

  /** A record with every field present and non-empty is read as it stands. */
  lemma ExtractFull(c: Country, capital: string, lat: real, lon: real, png: string, code: string)
    requires capital != "" && png != "" && code != ""
    requires c.capital.Some? && |c.capital.value| > 0 && c.capital.value[0] == capital
    requires c.capitalInfo == Some(CapitalInfo(Some([lat, lon])))
    requires c.flags == Some(Flags(Some(png)))
    requires c.currencies.Some? && |c.currencies.value| > 0 && c.currencies.value[0] == code
    ensures Extract(c) == Extracted(capital, lat, lon, png, code)
  {
  }

  /** `rates[currencyCode] || 1`: a missing rate, and a zero rate, both read as 1. */
  function RateFor(rates: map<string, real>, code: string): (r: real)
    ensures r != 0.0
    ensures code in rates && rates[code] != 0.0 ==> r == rates[code]
    ensures code !in rates || rates[code] == 0.0 ==> r == 1.0
  {
    if code in rates && rates[code] != 0.0 then rates[code] else 1.0
  }

  // ---------------------------------------------------------------------------
  // Word of the day, image and the assembled answer
  // ---------------------------------------------------------------------------

  /** The words the word of the day is drawn from. */
  const WordList: seq<string> := ["serendipity", "eloquent", "ephemeral", "luminous", "zenith"]
  const NoExample: string := "No example available"

  datatype Definition = Definition(definition: Option<string>, example: Option<string>)

  datatype Meaning = Meaning(definitions: seq<Definition>)

  /** A dictionary entry; the handler uses the first one the service returns. */
  datatype WordEntry = WordEntry(word: string, meanings: seq<Meaning>)

  datatype WordOfTheDay = WordOfTheDay(word: string, meaning: Option<string>, example: string)

  /** `wordData.meanings[0]?.definitions[0]` */
  function FirstDefinition(w: WordEntry): (d: Option<Definition>)
    ensures d.Some? <==> |w.meanings| > 0 && |w.meanings[0].definitions| > 0
    ensures d.Some? ==> d.value == w.meanings[0].definitions[0]
  {
    if |w.meanings| > 0 && |w.meanings[0].definitions| > 0 then Some(w.meanings[0].definitions[0]) else None
  }

  /**
   * The word of the day: the entry's word, the first definition's text (if
   * any), and its example or the fallback text, so the example is never empty.
   */
  function WordOfTheDayOf(w: WordEntry): (r: WordOfTheDay)
    ensures r.word == w.word
    ensures r.example != ""
    ensures var d := FirstDefinition(w);
              (d.Some? ==> r.meaning == d.value.definition) && (d.None? ==> r.meaning.None?)
    ensures var d := FirstDefinition(w);
              d.Some? && d.value.example.Some? && d.value.example.value != "" ==> r.example == d.value.example.value
    ensures var d := FirstDefinition(w);
              r.example == NoExample <==> d.None? || d.value.example.None? || d.value.example == Some("") || d.value.example == Some(NoExample)
  {
    var d := FirstDefinition(w);
    WordOfTheDay(
      w.word,
      if d.Some? then d.value.definition else None,
      OrString(if d.Some? then d.value.example else None, NoExample))
  }

  const ImagePrefix: string := "https://picsum.photos/seed/"
  const ImageSuffix: string := "/600/400"

  /** The placeholder image: the query term between a fixed prefix and a fixed size suffix. */
  function ImageUrl(country: string): (url: string)
    ensures |url| == |ImagePrefix| + |country| + |ImageSuffix|
    ensures url[..|ImagePrefix|] == ImagePrefix
    ensures url[|ImagePrefix|..|url| - |ImageSuffix|] == country
    ensures url[|url| - |ImageSuffix|..] == ImageSuffix
  {
    ImagePrefix + country + ImageSuffix
  }

  /** Different query terms give different image addresses. */
  lemma ImageUrlInjective(a: string, b: string)
    requires ImageUrl(a) == ImageUrl(b)
    ensures a == b
  {
    var u := ImageUrl(a);
    assert a == u[|ImagePrefix|..|u| - |ImageSuffix|];
  }

  datatype Conversion = Conversion(from: string, to: string, rate: real)

  /** The handler's JSON answer on success. */
  datatype Info<W, F> = Info(
    country: string,
    capital: string,
    population: int,
    flag: string,
    weather: W,
    funFact: F,
    randomImage: string,
    wordOfTheDay: WordOfTheDay,
    currencyConversion: Conversion)

  /** Why the handler answered 500: an upstream error, or a field read from `undefined`. */
  datatype Cause<E> = Thrown(error: E) | TypeError(what: string)

  datatype Reply<W, F, E> =
    | BadRequest(message: string)
    | ServerError(cause: Cause<E>)
    | Ok(info: Info<W, F>)

  const MissingCountry: string := "Country query parameter is required"

  /** The HTTP status of a reply. */
  function Status<W, F, E>(r: Reply<W, F, E>): (code: int)
    ensures code == 400 <==> r.BadRequest?
    ensures code == 500 <==> r.ServerError?
    ensures code == 200 <==> r.Ok?
  {
    match r
    case BadRequest(_) => 400
    case ServerError(_) => 500
    case Ok(_) => 200
  }

  /** The answer built from the country record, the four upstream results and the query term. */
  function Assemble<W, F>(term: string, c: Country, weather: W, fact: F, w: WordEntry, rates: map<string, real>): (info: Info<W, F>)
    ensures info.country == c.commonName && info.population == c.population
    ensures info.capital == Extract(c).capital && info.flag == Extract(c).flag
    ensures info.weather == weather && info.funFact == fact
    ensures info.randomImage == ImageUrl(term)
    ensures info.wordOfTheDay == WordOfTheDayOf(w)
    ensures info.currencyConversion ==
              Conversion("USD", Extract(c).currencyCode, RateFor(rates, Extract(c).currencyCode))
  {
    var x := Extract(c);
    Info(
      c.commonName,
      x.capital,
      c.population,
      x.flag,
      weather,
      fact,
      ImageUrl(term),
      WordOfTheDayOf(w),
      Conversion("USD", x.currencyCode, RateFor(rates, x.currencyCode)))
  }

  /**
   * Whatever the upstream data, the answer has a capital, a currency code, a
   * non-zero rate and an example; the conversion is always from USD to the
   * record's currency code; the image address is derived from the query term.
   */
  lemma AssembleTotal<W, F>(term: string, c: Country, weather: W, fact: F, w: WordEntry, rates: map<string, real>)
    ensures var info := Assemble(term, c, weather, fact, w, rates);
      && info.capital != ""
      && info.currencyConversion.from == "USD"
      && info.currencyConversion.to == Extract(c).currencyCode != ""
      && info.currencyConversion.rate != 0.0
      && info.wordOfTheDay.example != ""
      && info.randomImage == ImagePrefix + term + ImageSuffix
  {
  }

  // ---------------------------------------------------------------------------
  // The handler
  // ---------------------------------------------------------------------------

  /**
   * `GET /api/super-info?country=…`. A missing or empty `country` is answered
   * 400 before any upstream request. Otherwise the five upstreams are asked
   * one after the other, each through FetchWithRetry with its defaults; the
   * first upstream that throws, or a read from an absent record, ends the
   * request with 500 and no later upstream is asked. `pick` is the index the
   * random draw chose in WordList. `asked` counts the upstreams asked, in
   * the order countries, weather, trivia, dictionary, exchange rates.
   */
  method SuperInfo<W, F, E>(
    country: Option<string>,
    pick: nat,
    countryApi: string -> nat -> Attempt<seq<Country>, E>,
    weatherApi: (real, real) -> nat -> Attempt<W, E>,
    factApi: nat -> Attempt<F, E>,
    dictApi: string -> nat -> Attempt<seq<WordEntry>, E>,
    rateApi: nat -> Attempt<Option<map<string, real>>, E>)
    returns (reply: Reply<W, F, E>, asked: nat)
    requires pick < |WordList|
    ensures Status(reply) == 400 <==> country.None? || country.value == ""
    ensures reply.BadRequest? ==> reply.message == MissingCountry && asked == 0
    ensures asked <= 5
    ensures reply.Ok? ==> asked == 5
    ensures !reply.BadRequest? ==> 0 < asked
    ensures !reply.BadRequest? && asked < 5 ==> reply.ServerError?
    ensures country.Some? && country.value != "" ==>
              var cr := Settle(countryApi(country.value), DefaultRetries);
              && (cr.Rejected? ==> reply == ServerError(Thrown(cr.error)) && asked == 1)
              && (cr.Resolved? && cr.response == [] ==> reply.ServerError? && asked == 1)
    ensures country.Some? && country.value != "" ==>
              var cr := Settle(countryApi(country.value), DefaultRetries);
              cr.Resolved? && cr.response != [] ==>
                var c := cr.response[0];
                var x := Extract(c);
                var wr := Settle(weatherApi(x.lat, x.lon), DefaultRetries);
                var fr := Settle(factApi, DefaultRetries);
                var dr := Settle(dictApi(WordList[pick]), DefaultRetries);
                var rr := Settle(rateApi, DefaultRetries);
                && (wr.Rejected? ==> reply == ServerError(Thrown(wr.error)) && asked == 2)
                && (wr.Resolved? && fr.Rejected? ==> reply == ServerError(Thrown(fr.error)) && asked == 3)
                && (wr.Resolved? && fr.Resolved? && dr.Rejected? ==> reply == ServerError(Thrown(dr.error)) && asked == 4)
                && (wr.Resolved? && fr.Resolved? && dr.Resolved? && rr.Rejected? ==>
                      reply == ServerError(Thrown(rr.error)) && asked == 5)
                && (reply.Ok? <==> wr.Resolved? && fr.Resolved? && dr.Resolved? && rr.Resolved?
                                   && dr.response != [] && rr.response.Some?)
                && (reply.Ok? ==>
                      reply.info == Assemble(country.value, c, wr.response, fr.response, dr.response[0], rr.response.value))
  {
    if country.None? || country.value == "" {
      return BadRequest(MissingCountry), 0;
    }
    var term := country.value;

    var countryRes, _ := FetchWithDefaults(countryApi(term));
    asked := 1;
    if !countryRes.Resolved? {
      return ServerError(Thrown(countryRes.error)), asked;
    }
    if countryRes.response == [] {
      return ServerError(TypeError("countryData is undefined")), asked;
    }
    var countryData := countryRes.response[0];
    var x := Extract(countryData);

    var weatherRes, _ := FetchWithDefaults(weatherApi(x.lat, x.lon));
    asked := 2;
    if !weatherRes.Resolved? {
      return ServerError(Thrown(weatherRes.error)), asked;
    }

    var factRes, _ := FetchWithDefaults(factApi);
    asked := 3;
    if !factRes.Resolved? {
      return ServerError(Thrown(factRes.error)), asked;
    }

    var randomWord := WordList[pick];
    var dictRes, _ := FetchWithDefaults(dictApi(randomWord));
    asked := 4;
    if !dictRes.Resolved? {
      return ServerError(Thrown(dictRes.error)), asked;
    }

    var currencyRes, _ := FetchWithDefaults(rateApi);
    asked := 5;
    if !currencyRes.Resolved? {
      return ServerError(Thrown(currencyRes.error)), asked;
    }
    if currencyRes.response.None? {
      return ServerError(TypeError("rates is undefined")), asked;
    }
    if dictRes.response == [] {
      return ServerError(TypeError("wordData is undefined")), asked;
    }
    var info := Assemble(term, countryData, weatherRes.response, factRes.response,
                         dictRes.response[0], currencyRes.response.value);
    reply := Ok(info);
  }
}

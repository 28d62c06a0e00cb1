/** The daily-quote policy and the visit counters of the dashboard page
    (public/dashboard.js). The clock, the network and JSON are passed in as values. */
module Dashboard {
  import opened Wrappers
  import opened Calendar
  import opened JsNumber
  import opened WebStorage

  // ---------------------------------------------------------------------------
  // Configuration
  // ---------------------------------------------------------------------------

  const CacheKey := "daily-quote-cache"
  const CacheDateKey := "daily-quote-date"
  const VisitsKey := "dashboard-visits"
  const PageLoadsKey := "page-loads"

  /** Quote text longer than this is cut when displayed. */
  const MaxShownLength := 200
  const Ellipsis := "..."

  // ---------------------------------------------------------------------------
  // Quotes
  // ---------------------------------------------------------------------------

  /** A quote object. Fallback quotes carry neither `id` nor `tags`; quotes from the
      service always carry `tags` and carry `id` when the service sent one. */
  datatype Quote = Quote(text: string, author: string, id: Option<int>, tags: Option<seq<string>>)

  function Fallback(text: string, author: string): Quote {
    Quote(text, author, None, None)
  }

  /** FALLBACK_QUOTES. */
  const FallbackQuotes: seq<Quote> := [
    Fallback("The best time to plant a tree was 20 years ago. The second best time is now.", "Chinese Proverb"),
    Fallback("Code is like humor. When you have to explain it, it's bad.", "Cory House"),
    Fallback("First, solve the problem. Then, write the code.", "John Johnson"),
    Fallback("The only way to do great work is to love what you do.", "Steve Jobs"),
    Fallback("Innovation distinguishes between a leader and a follower.", "Steve Jobs"),
    Fallback("Any fool can write code that a computer can understand. Good programmers write code that humans can understand.", "Martin Fowler"),
    Fallback("Experience is the name everyone gives to their mistakes.", "Oscar Wilde"),
    Fallback("Talk is cheap. Show me the code.", "Linus Torvalds"),
    Fallback("The future belongs to those who learn more skills and combine them in creative ways.", "Robert Greene"),
    Fallback("Programs must be written for people to read, and only incidentally for machines to execute.", "Harold Abelson")
  ]

  /** The fallback table holds ten quotes, each with a non-empty text and author, none
      long enough to be cut when displayed, none carrying `id` or `tags`. */
  lemma FallbackQuotesWellFormed(i: nat)
    requires i < |FallbackQuotes|
    ensures |FallbackQuotes| == 10
    ensures var q := FallbackQuotes[i];
      && q.text != "" && q.author != "" && DisplayText(q.text) == q.text
      && q.id.None? && q.tags.None?
  {
  }

  /** A string field is truthy in JavaScript when it is present and not empty. */
  predicate Truthy(field: Option<string>) {
    field.Some? && field.value != ""
  }

  /** What a quote accepted from the service looks like. */
  predicate WellFormed(q: Quote) {
    q.text != "" && q.author != "" && q.tags.Some?
  }

  /** `getDayBasedItem(array)`: the entry at `day % array.length`; `undefined` for an
      empty table, whose index `day % 0` is NaN. */
  function GetDayBasedItem<T>(table: seq<T>, day: DayOfMonth): (r: Option<T>)
    ensures r.Some? <==> |table| > 0
    ensures r.Some? ==> r.value == table[day % |table|]
  {
    if |table| == 0 then None else Some(table[day % |table|])
  }

  /** Two days that agree modulo the table's length pick the same entry, so the same day
      always picks the same entry. */
  lemma DayBasedItemPeriodic<T>(table: seq<T>, day1: DayOfMonth, day2: DayOfMonth)
    requires |table| > 0 && day1 % |table| == day2 % |table|
    ensures GetDayBasedItem(table, day1) == GetDayBasedItem(table, day2)
  {
  }

  /** Every entry of a table of at most 31 entries is picked on some day of every month. */
  lemma EveryItemOnSomeDay<T>(table: seq<T>, i: nat)
    requires i < |table| <= 31
    ensures exists day: DayOfMonth :: GetDayBasedItem(table, day) == Some(table[i])
  {
    var day: DayOfMonth := if i == 0 then |table| else i;
    assert GetDayBasedItem(table, day) == Some(table[i]);
  }

  // ---------------------------------------------------------------------------
  // The quote service
  // ---------------------------------------------------------------------------

  /** The fields of the service's JSON body that the validation reads. A field that is
      missing, `null`, or (for `text`) not a string is `None`; a body that is `null`, a
      primitive or an array has every field `None`. `tags` is `None` also when falsy. */
  datatype RawQuote = RawQuote(text: Option<string>, author: Option<string>, id: Option<int>, tags: Option<seq<string>>)

  /** What `response.json()` yields. */
  datatype Body = Unparsable | Value(raw: RawQuote)

  /** The outcome of `fetch(apiUrl)`: a rejected promise, or a response with its `ok` flag. */
  datatype Response = NetworkError | Received(ok: bool, body: Body)

  /** `fetchQuoteFromAPI()` after the request has completed: a quote when the status is
      ok, the body parses, and both `text` and `author` are truthy; `null` otherwise. */
  function FetchQuoteFromApi(response: Response): (r: Option<Quote>)
    ensures r.Some? <==>
      response.Received? && response.ok && response.body.Value?
      && Truthy(response.body.raw.text) && Truthy(response.body.raw.author)
    ensures r.Some? ==> WellFormed(r.value)
    ensures r.Some? ==>
      var raw := response.body.raw;
      && r.value.text == raw.text.value && r.value.author == raw.author.value && r.value.id == raw.id
      && r.value.tags == Some(if raw.tags.Some? then raw.tags.value else [])
  {
    match response
    case NetworkError => None
    case Received(ok, body) =>
      if !ok then None
      else match body
        case Unparsable => None
        case Value(raw) =>
          if Truthy(raw.text) && Truthy(raw.author)
          then Some(Quote(raw.text.value, raw.author.value, raw.id, Some(raw.tags.GetOr([]))))
          else None
  }

  /** The response the service would send for a quote. */
  function ResponseFor(q: Quote): Response {
    Received(true, Value(RawQuote(Some(q.text), Some(q.author), q.id, q.tags)))
  }

  /** Validation accepts exactly the well-formed quotes: each one comes back unchanged
      from the response that carries it. */
  lemma FetchAcceptsEveryWellFormedQuote(q: Quote)
    requires WellFormed(q)
    ensures FetchQuoteFromApi(ResponseFor(q)) == Some(q)
  {
  }

  // ---------------------------------------------------------------------------
  // Display
  // ---------------------------------------------------------------------------

  /** The quote text as `displayQuote` shows it: cut to 200 characters with `...`
      appended when longer. */
  function DisplayText(text: string): (shown: string)
    ensures |text| <= MaxShownLength ==> shown == text
    ensures |text| > MaxShownLength ==> shown == text[..MaxShownLength] + Ellipsis
    ensures |shown| <= MaxShownLength + |Ellipsis|
  {
    if |text| > MaxShownLength then text[..MaxShownLength] + Ellipsis else text
  }

  /** What the quote element ends up showing: the displayed text and the attribution. */
  datatype Shown = Shown(text: string, author: string)

  /** `displayQuote(quote)`: nothing for a falsy quote. */
  function DisplayQuote(quote: Option<Quote>): (r: Option<Shown>)
    ensures r.Some? <==> quote.Some?
    ensures r.Some? ==> r.value.author == quote.value.author && r.value.text == DisplayText(quote.value.text)
  {
    match quote
    case None => None
    case Some(q) => Some(Shown(DisplayText(q.text), q.author))
  }

  // ---------------------------------------------------------------------------
  // The cache
  // ---------------------------------------------------------------------------

  /** What `JSON.parse` makes of the cached string, as far as the cache path reads it:
      it throws; a falsy value (`null`, `false`, `0`, `""`) that `displayQuote` ignores;
      a truthy value whose `text` is missing or `null`, on which `displayQuote` throws;
      or a quote. */
  datatype Parsed = ParseError | Falsy | NoText | Object(quote: Quote)

  /** `JSON.stringify` and `JSON.parse` as used on quotes. */
  datatype Json = Json(stringify: Quote -> string, parse: string -> Parsed)

  /** What JSON guarantees for quote objects: the serialised form is never empty (it is an
      object literal) and parses back to the same quote. */
  ghost predicate Faithful(json: Json) {
    forall q: Quote {:trigger json.stringify(q)} ::
      json.stringify(q) != "" && json.parse(json.stringify(q)) == Object(q)
  }

  /** The cache path (lines 231-245): `Hit` when the stored date is today's and the stored
      payload is non-empty and gets through `JSON.parse` and `displayQuote`. */
  datatype CacheLookup = Hit(shown: Option<Quote>) | Miss

  function ReadCache(items: map<string, string>, today: string, json: Json): (r: CacheLookup)
    ensures r.Hit? <==>
      && Get(items, CacheDateKey) == Some(today)
      && CacheKey in items && items[CacheKey] != ""
      && (json.parse(items[CacheKey]).Falsy? || json.parse(items[CacheKey]).Object?)
    ensures r.Hit? && json.parse(items[CacheKey]).Object? ==> r.shown == Some(json.parse(items[CacheKey]).quote)
    ensures r.Hit? && json.parse(items[CacheKey]).Falsy? ==> r.shown == None
  {
    var cachedDate := Get(items, CacheDateKey);
    var cachedQuote := Get(items, CacheKey);
    if cachedDate == Some(today) && cachedQuote.Some? && cachedQuote.value != "" then
      match json.parse(cachedQuote.value)
      case Falsy => Hit(None)
      case Object(q) => Hit(Some(q))
      case _ => Miss
    else Miss
  }

  // ---------------------------------------------------------------------------
  // loadDailyQuote
  // ---------------------------------------------------------------------------

  datatype Path = CacheHit | Fetched | FellBack

  /** One run of `loadDailyQuote`: the path taken, the quote handed to `displayQuote`
      (`None` when nothing is displayed) and the store afterwards. */
  datatype Outcome = Outcome(path: Path, shown: Option<Quote>, items: map<string, string>)

  function DailyQuote(items: map<string, string>, today: string, day: DayOfMonth, response: Response, json: Json): (r: Outcome)
    ensures r.path == CacheHit <==> ReadCache(items, today, json).Hit?
    ensures r.path == CacheHit ==> r.shown == ReadCache(items, today, json).shown
    ensures r.path == Fetched <==> ReadCache(items, today, json).Miss? && FetchQuoteFromApi(response).Some?
    ensures r.path == Fetched ==>
      && r.shown == FetchQuoteFromApi(response)
      && r.items == items[CacheKey := json.stringify(r.shown.value)][CacheDateKey := today]
    ensures r.path == FellBack ==> r.shown == Some(FallbackQuotes[day % 10])
    ensures r.path != Fetched ==> r.items == items
    ensures forall k :: k != CacheKey && k != CacheDateKey ==> Get(r.items, k) == Get(items, k)
  {
    match ReadCache(items, today, json)
    case Hit(shown) => Outcome(CacheHit, shown, items)
    case Miss =>
      match FetchQuoteFromApi(response)
      case Some(q) => Outcome(Fetched, Some(q), items[CacheKey := json.stringify(q)][CacheDateKey := today])
      case None => Outcome(FellBack, GetDayBasedItem(FallbackQuotes, day), items)
  }

  /** `loadDailyQuote()`, with today's date string, the day of the month, the outcome of
      the one request it may make, and the JSON functions passed in. Returns the quote it
      hands to `displayQuote`. */
  method LoadDailyQuote(storage: Storage, today: string, day: DayOfMonth, response: Response, json: Json)
    returns (shown: Option<Quote>)
    modifies storage
    ensures var r := DailyQuote(old(storage.items), today, day, response, json);
      storage.items == r.items && shown == r.shown
  {
    var cachedDate := storage.GetItem(CacheDateKey);
    var cachedQuote := storage.GetItem(CacheKey);
    if cachedDate == Some(today) && cachedQuote.Some? && cachedQuote.value != "" {
      match json.parse(cachedQuote.value)
      case Falsy =>
        return None;
      case Object(q) =>
        return Some(q);
      case _ =>
    }
    var apiQuote := FetchQuoteFromApi(response);
    if apiQuote.Some? {
      storage.SetItem(CacheKey, json.stringify(apiQuote.value));
      storage.SetItem(CacheDateKey, today);
      shown := apiQuote;
    } else {
      shown := GetDayBasedItem(FallbackQuotes, day);
    }
  }

  /** A quote cached under today's date is displayed as it is: no request is made (the
      response plays no part) and the store is left unchanged. */
  lemma CachedQuoteIsShown(items: map<string, string>, today: string, day: DayOfMonth, response: Response, json: Json, q: Quote)
    requires Get(items, CacheDateKey) == Some(today) && CacheKey in items && items[CacheKey] != ""
    requires json.parse(items[CacheKey]) == Object(q)
    ensures var r := DailyQuote(items, today, day, response, json);
      r.path == CacheHit && r.shown == Some(q) && r.items == items
  {
  }

  /** A payload stored under today's date that `JSON.parse` rejects, or whose `text` is
      missing or `null`, is passed over: the request is made, and when it fails the payload is left
      in place rather than cleared. */
  lemma UnusableCacheFallsThrough(items: map<string, string>, today: string, day: DayOfMonth, response: Response, json: Json)
    requires Get(items, CacheDateKey) == Some(today) && CacheKey in items
    requires json.parse(items[CacheKey]) in {ParseError, NoText}
    ensures var r := DailyQuote(items, today, day, response, json);
      && r.path == (if FetchQuoteFromApi(response).Some? then Fetched else FellBack)
      && (r.path == FellBack ==> CacheKey in r.items && r.items[CacheKey] == items[CacheKey])
  {
  }

  /** Nothing is displayed only on the cache path, when the cached payload parses to a
      falsy value; every other run displays a quote. */
  lemma NothingShownOnlyForFalsyCache(items: map<string, string>, today: string, day: DayOfMonth, response: Response, json: Json)
    ensures var r := DailyQuote(items, today, day, response, json);
      r.shown.None? <==> r.path == CacheHit && json.parse(items[CacheKey]) == Falsy
  {
  }

  /** After a successful request on day `today`, the next load on the same day, whatever
      its day of the month and whatever the service would answer, takes the cache path,
      writes nothing and displays the same quote. */
  lemma ReloadAfterFetchHitsCache(items: map<string, string>, today: string, day: DayOfMonth, response: Response,
                                  day': DayOfMonth, response': Response, json: Json)
    requires Faithful(json)
    requires DailyQuote(items, today, day, response, json).path == Fetched
    ensures var first := DailyQuote(items, today, day, response, json);
      var second := DailyQuote(first.items, today, day', response', json);
      && second.path == CacheHit
      && second.items == first.items
      && second.shown == first.shown
  {
    var first := DailyQuote(items, today, day, response, json);
    var q := first.shown.value;
    assert Get(first.items, CacheDateKey) == Some(today);
    assert first.items[CacheKey] == json.stringify(q);
    assert json.parse(json.stringify(q)) == Object(q);
  }

  /** Two loads on the same day, the second not fetching successfully, display the same
      quote: a cached quote stays cached, and the fallback depends on the day alone. */
  lemma SameDaySameQuote(items: map<string, string>, today: string, day: DayOfMonth,
                         response: Response, response': Response, json: Json)
    requires Faithful(json)
    ensures var first := DailyQuote(items, today, day, response, json);
      var second := DailyQuote(first.items, today, day, response', json);
      second.path != Fetched ==> second.shown == first.shown
  {
    var first := DailyQuote(items, today, day, response, json);
    if first.path == Fetched {
      ReloadAfterFetchHitsCache(items, today, day, response, day, response', json);
    }
  }

  /** The scenario of an empty store and a service answering `{text: "A", author: "B"}`:
      the quote is displayed as "A" by "B" and cached with empty tags under today's date. */
  lemma FirstLoadScenario(today: string, day: DayOfMonth, json: Json)
    ensures var r := DailyQuote(map[], today, day, Received(true, Value(RawQuote(Some("A"), Some("B"), None, None))), json);
      && r.path == Fetched
      && r.shown == Some(Quote("A", "B", None, Some([])))
      && DisplayQuote(r.shown) == Some(Shown("A", "B"))
      && r.items == map[CacheKey := json.stringify(Quote("A", "B", None, Some([]))), CacheDateKey := today]
  {
  }

  /** The scenario of an empty store, a network error and the 15th of the month: the
      sixth fallback quote (index 5) is displayed and the store stays empty. */
  lemma NetworkErrorScenario(today: string, json: Json)
    ensures var r := DailyQuote(map[], today, 15, NetworkError, json);
      r.path == FellBack && r.shown == Some(FallbackQuotes[5]) && r.items == map[]
  {
  }

  // ---------------------------------------------------------------------------
  // updateVisitorCount
  // ---------------------------------------------------------------------------

  /** `localStorage.getItem(key) || 0`, as the string `parseInt` then reads: a missing or
      empty value counts as "0". */
  function OrZero(stored: Option<string>): (s: string)
    ensures s != ""
    ensures stored.Some? && stored.value != "" ==> s == stored.value
    ensures stored.None? || stored.value == "" ==> s == "0"
  {
    if stored.Some? && stored.value != "" then stored.value else "0"
  }

  /** `parseInt(localStorage.getItem(key) || 0)`: the count the page reads for `key`. */
  function ReadCounter(items: map<string, string>, key: string): (n: Num)
    ensures key !in items || items[key] == "" ==> n == Int(0)
    ensures key in items && items[key] != "" ==> n == ParseInt(items[key])
  {
    assert NumberToString(Int(0)) == "0";
    ParseIntOfNumberToString(Int(0));
    ParseInt(OrZero(Get(items, key)))
  }

  /** `parseInt(...) + 1`, stored back with `setItem`. */
  function Bump(items: map<string, string>, key: string): (r: map<string, string>)
    ensures ReadCounter(r, key) == Increment(ReadCounter(items, key))
    ensures forall k :: k != key ==> Get(r, k) == Get(items, k)
  {
    var n := Increment(ReadCounter(items, key));
    ParseIntOfNumberToString(n);
    items[key := NumberToString(n)]
  }

  /** The store after `updateVisitorCount()`: both counters read one more than before (a
      missing count being 0, a count that does not parse staying NaN), and every other key
      is unchanged. */
  function CountVisit(items: map<string, string>): (r: map<string, string>)
    ensures ReadCounter(r, VisitsKey) == Increment(ReadCounter(items, VisitsKey))
    ensures ReadCounter(r, PageLoadsKey) == Increment(ReadCounter(items, PageLoadsKey))
    ensures forall k :: k != VisitsKey && k != PageLoadsKey ==> Get(r, k) == Get(items, k)
  {
    var once := Bump(items, VisitsKey);
    assert Get(once, PageLoadsKey) == Get(items, PageLoadsKey);
    var twice := Bump(once, PageLoadsKey);
    assert Get(twice, VisitsKey) == Get(once, VisitsKey);
    twice
  }

  /** `updateVisitorCount()`: returns the two counts it displays. */
  method UpdateVisitorCount(storage: Storage) returns (visits: Num, pageLoads: Num)
    modifies storage
    ensures storage.items == CountVisit(old(storage.items))
    ensures visits == Increment(ReadCounter(old(storage.items), VisitsKey))
    ensures pageLoads == Increment(ReadCounter(old(storage.items), PageLoadsKey))
  {
    var stored := storage.GetItem(VisitsKey);
    visits := Increment(ParseInt(OrZero(stored)));
    storage.SetItem(VisitsKey, NumberToString(visits));

    stored := storage.GetItem(PageLoadsKey);
    pageLoads := Increment(ParseInt(OrZero(stored)));
    storage.SetItem(PageLoadsKey, NumberToString(pageLoads));
  }
}

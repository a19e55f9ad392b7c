/**
 * The background music of music.js: session storage remembers whether the
 * song should play and how far it got, so playback continues across the
 * pages of one visit and starts over on a fresh open of the index page.
 *
 * The audio element, timers and the browser's navigation data are inputs:
 * the element is a value (`Audio`), playing and seeking are recorded as
 * effects, and numbers are JavaScript numbers restricted to what decimal
 * text can spell (`JsNumber`).
 */
module Music {

  import opened Wrappers

  const INDEX_DELAY_MS: nat := 3000
  const VOLUME: real := 0.2
  /** Playback is re-positioned only when it is further than this, in seconds, from the saved time. */
  const SEEK_TOLERANCE: real := 1.0

  const SHOULD_PLAY_KEY: string := "valentines.music.shouldPlay"
  const TIME_KEY: string := "valentines.music.time"
  /** The value of the should-play key that means "keep playing". */
  const PLAYING: string := "1"

  // ---------------------------------------------------------------------------
  // Numbers and their decimal text
  // ---------------------------------------------------------------------------

  type Digit = d: int | 0 <= d < 10

  /**
   * A JavaScript number: a finite decimal with its sign, integer part and
   * fraction digits, `NaN`, or an infinity.
   */
  datatype JsNumber = Decimal(negative: bool, whole: nat, fraction: seq<Digit>) | NaN | Infinite(negative: bool)
  {
    function Value(): real
      requires Decimal?
    {
      var magnitude := whole as real + FractionValue(fraction);
      if negative then -magnitude else magnitude
    }
  }

  const ZERO: JsNumber := Decimal(false, 0, [])

  /** The number a string of decimal digits spells, most significant first. */
  function DigitsValue(ds: seq<Digit>): nat {
    if ds == [] then 0 else DigitsValue(ds[..|ds| - 1]) * 10 + ds[|ds| - 1]
  }

  /** The value of the digits after a decimal point: the first one counts tenths. */
  function FractionValue(ds: seq<Digit>): (f: real)
    ensures 0.0 <= f < 1.0
  {
    if ds == [] then 0.0 else (ds[0] as real + FractionValue(ds[1..])) / 10.0
  }

  predicate IsDigitChar(c: char) { '0' <= c <= '9' }

  function CharDigit(c: char): Digit
    requires IsDigitChar(c)
  {
    c as int - '0' as int
  }

  function DigitChar(d: Digit): (c: char)
    ensures IsDigitChar(c) && CharDigit(c) == d
  {
    ('0' as int + d) as char
  }

  /** The white space `parseFloat` skips before the number. */
  predicate IsWhiteSpace(c: char) {
    c == ' ' || c == '\t' || c == '\n' || c == '\r' || c == '\U{B}' || c == '\U{C}'
    || c == '\U{A0}' || c == '\U{FEFF}' || c == '\U{2028}' || c == '\U{2029}'
  }

  /** Drop leading white space. */
  function TrimStart(s: string): (t: string)
    ensures |t| <= |s| && t == s[|s| - |t|..]
    ensures t != [] ==> !IsWhiteSpace(t[0])
    ensures forall i :: 0 <= i < |s| - |t| ==> IsWhiteSpace(s[i])
  {
    if s != [] && IsWhiteSpace(s[0]) then TrimStart(s[1..]) else s
  }

  /** The longest prefix of `s` made of decimal digits, as digits. */
  function LeadingDigits(s: string): (ds: seq<Digit>)
    ensures |ds| <= |s|
    ensures forall i :: 0 <= i < |ds| ==> IsDigitChar(s[i]) && ds[i] == CharDigit(s[i])
    ensures |ds| < |s| ==> !IsDigitChar(s[|ds|])
  {
    if s != [] && IsDigitChar(s[0]) then [CharDigit(s[0])] + LeadingDigits(s[1..]) else []
  }

  const INFINITY: string := "Infinity"

  /** An unsigned decimal literal or `Infinity` at the start of `t`; `NaN` when there is neither. */
  function ParseUnsigned(t: string): (x: JsNumber)
    ensures x.Decimal? ==> !x.negative
    ensures x.Infinite? ==> !x.negative
    ensures t != [] && IsDigitChar(t[0]) ==> x.Decimal?
    ensures t == [] || (!IsDigitChar(t[0]) && t[0] != '.' && t[0] != 'I') ==> x == NaN
  {
    assert |t| >= |INFINITY| ==> t[..|INFINITY|][0] == t[0];
    if |t| >= |INFINITY| && t[..|INFINITY|] == INFINITY then Infinite(false)
    else
      var whole := LeadingDigits(t);
      var rest := t[|whole|..];
      var fraction := if rest != [] && rest[0] == '.' then LeadingDigits(rest[1..]) else [];
      if whole == [] && fraction == [] then NaN
      else Decimal(false, DigitsValue(whole), fraction)
  }

  /** Flip the sign; NaN stays NaN. */
  function Negate(x: JsNumber): (r: JsNumber)
    ensures r.Decimal? == x.Decimal? && r.Infinite? == x.Infinite? && r.NaN? == x.NaN?
    ensures r.Decimal? || r.Infinite? ==> r.negative == !x.negative
  {
    match x
    case Decimal(n, w, f) => Decimal(!n, w, f)
    case NaN => NaN
    case Infinite(n) => Infinite(!n)
  }

  /** `Number.parseFloat`: skip white space, read an optional sign and then the longest number there is. */
  function ParseFloat(s: string): (x: JsNumber)
    ensures var t := TrimStart(s); x.Decimal? || x.Infinite? ==> (x.negative <==> t != [] && t[0] == '-')
    ensures var t := TrimStart(s); t != [] && IsDigitChar(t[0]) ==> x.Decimal?
    ensures var t := TrimStart(s);
      t == [] || (!IsDigitChar(t[0]) && t[0] != '+' && t[0] != '-' && t[0] != '.' && t[0] != 'I') ==> x == NaN
  {
    var t := TrimStart(s);
    if t != [] && t[0] == '-' then Negate(ParseUnsigned(t[1..]))
    else if t != [] && t[0] == '+' then ParseUnsigned(t[1..])
    else ParseUnsigned(t)
  }

  /** The decimal digits of `n`, most significant first, without leading zeros. */
  function NatDigits(n: nat): (ds: seq<Digit>)
    ensures ds != [] && DigitsValue(ds) == n
    ensures n == 0 ==> ds == [0]
    ensures n > 0 ==> ds[0] != 0
    decreases n
  {
    if n < 10 then
      assert [n] == [] + [n];
      DigitsValueSnoc([], n);
      [n]
    else
      DigitsValueSnoc(NatDigits(n / 10), n % 10);
      NatDigits(n / 10) + [n % 10]
  }

  function ShowDigits(ds: seq<Digit>): (s: string)
    ensures |s| == |ds|
    ensures forall i :: 0 <= i < |ds| ==> s[i] == DigitChar(ds[i])
  {
    if ds == [] then "" else [DigitChar(ds[0])] + ShowDigits(ds[1..])
  }

  /** A finite, non-negative number: what `setSavedTime` agrees to store. */
  predicate Storable(time: JsNumber) {
    time.Decimal? && time.Value() >= 0.0
  }

  /** `String(time)` for a storable time: its integer part, then its fraction digits after a point. */
  function FormatTime(time: JsNumber): (s: string)
    requires Storable(time)
    ensures s != [] && IsDigitChar(s[0])
  {
    ShowDigits(NatDigits(time.whole)) + (if time.fraction == [] then "" else "." + ShowDigits(time.fraction))
  }

  lemma {:induction false} DigitsValueSnoc(ds: seq<Digit>, d: Digit)
    ensures DigitsValue(ds + [d]) == DigitsValue(ds) * 10 + d
  {
    assert (ds + [d])[..|ds|] == ds;
  }

  /** Reading digits back from their text stops exactly where the digits end. */
  lemma {:induction false} LeadingDigitsOfShow(ds: seq<Digit>, rest: string)
    requires rest == [] || !IsDigitChar(rest[0])
    ensures LeadingDigits(ShowDigits(ds) + rest) == ds
    decreases |ds|
  {
    if ds != [] {
      assert (ShowDigits(ds) + rest)[1..] == ShowDigits(ds[1..]) + rest;
      LeadingDigitsOfShow(ds[1..], rest);
    } else {
      assert ShowDigits(ds) + rest == rest;
    }
  }

  /** Text that starts with a digit is read by `parseFloat` as an unsigned decimal. */
  lemma ParseFloatOfDigitText(s: string)
    requires s != [] && IsDigitChar(s[0])
    ensures ParseFloat(s) == ParseUnsigned(s)
    ensures ParseUnsigned(s) == Decimal(false, DigitsValue(LeadingDigits(s)),
      var rest := s[|LeadingDigits(s)|..]; if rest != [] && rest[0] == '.' then LeadingDigits(rest[1..]) else [])
  {
    assert TrimStart(s) == s;
    if |s| >= |INFINITY| {
      assert s[..|INFINITY|][0] == s[0];
    }
  }

  /** A non-negative decimal has the value of its magnitude, whatever its sign bit says. */
  lemma NonNegativeMagnitude(x: JsNumber)
    requires Storable(x)
    ensures Decimal(false, x.whole, x.fraction).Value() == x.Value()
  {
  }

  /** Parsing the text written for a storable time gives back its digits, hence its value. */
  lemma FormatTimeRoundTrip(time: JsNumber)
    requires Storable(time)
    ensures ParseFloat(FormatTime(time)) == Decimal(false, time.whole, time.fraction)
    ensures Storable(ParseFloat(FormatTime(time))) && ParseFloat(FormatTime(time)).Value() == time.Value()
  {
    var s := FormatTime(time);
    var wholeDigits := NatDigits(time.whole);
    var suffix := if time.fraction == [] then "" else "." + ShowDigits(time.fraction);
    assert s == ShowDigits(wholeDigits) + suffix;
    ParseFloatOfDigitText(s);
    LeadingDigitsOfShow(wholeDigits, suffix);
    assert s[|wholeDigits|..] == suffix;
    if time.fraction != [] {
      LeadingDigitsOfShow(time.fraction, "");
      assert suffix[1..] == ShowDigits(time.fraction) + "";
    }
    NonNegativeMagnitude(time);
  }

  // ---------------------------------------------------------------------------
  // Session storage
  // ---------------------------------------------------------------------------

  type Store = map<string, string>

  /** `getSavedTime`: the stored offset when it parses to a finite, non-negative number, else 0. */
  function SavedTime(store: Store): (t: JsNumber)
    ensures t.Decimal? && t.Value() >= 0.0
    ensures t != ZERO ==> TIME_KEY in store && store[TIME_KEY] != "" && t == ParseFloat(store[TIME_KEY])
    ensures TIME_KEY !in store || store[TIME_KEY] == "" || !Storable(ParseFloat(store[TIME_KEY])) ==> t == ZERO
  {
    var parsed := if TIME_KEY in store && store[TIME_KEY] != "" then ParseFloat(store[TIME_KEY]) else ZERO;
    if parsed.Decimal? && parsed.Value() >= 0.0 then parsed else ZERO
  }

  /** Non-empty stored text counts when it parses to a finite, non-negative number. */
  lemma SavedTimeOfText(store: Store, text: string)
    requires text != ""
    ensures SavedTime(store[TIME_KEY := text]) == if Storable(ParseFloat(text)) then ParseFloat(text) else ZERO
  {
    assert store[TIME_KEY := text][TIME_KEY] == text;
  }

  /** White space in front of the text changes nothing. */
  lemma {:induction false} TrimStartSkipsWhiteSpace(ws: string, s: string)
    requires forall i :: 0 <= i < |ws| ==> IsWhiteSpace(ws[i])
    ensures TrimStart(ws + s) == TrimStart(s)
    decreases |ws|
  {
    if ws == [] {
      assert ws + s == s;
    } else {
      assert (ws + s)[0] == ws[0];
      assert (ws + s)[1..] == ws[1..] + s;
      TrimStartSkipsWhiteSpace(ws[1..], s);
    }
  }

  lemma ParseFloatSkipsWhiteSpace(ws: string, s: string)
    requires forall i :: 0 <= i < |ws| ==> IsWhiteSpace(ws[i])
    ensures ParseFloat(ws + s) == ParseFloat(s)
  {
    TrimStartSkipsWhiteSpace(ws, s);
  }

  /** A stored time with a minus sign reads as 0: it is negative, `-0`, or not a number. */
  lemma NegativeTextReadsAsZero(store: Store, text: string)
    requires text != "" && text[0] == '-'
    ensures SavedTime(store[TIME_KEY := text]).Value() == 0.0
  {
    assert TrimStart(text) == text;
    SavedTimeOfText(store, text);
  }

  /** A stored infinity reads as 0. */
  lemma InfinityTextReadsAsZero(store: Store, text: string)
    requires |text| >= |INFINITY| && text[..|INFINITY|] == INFINITY
    ensures SavedTime(store[TIME_KEY := text]) == ZERO
  {
    assert TrimStart(text) == text by {
      assert text[0] == text[..|INFINITY|][0];
    }
    assert text[0] == 'I';
    SavedTimeOfText(store, text);
  }

  /** Stored text that cannot begin a number reads as 0. */
  lemma NonNumericTextReadsAsZero(store: Store, text: string)
    requires text != "" && !IsWhiteSpace(text[0]) && !IsDigitChar(text[0])
    requires text[0] != '.' && text[0] != '+' && text[0] != '-' && text[0] != 'I'
    ensures SavedTime(store[TIME_KEY := text]) == ZERO
  {
    assert TrimStart(text) == text;
    if |text| >= |INFINITY| {
      assert text[..|INFINITY|][0] == text[0];
    }
    assert LeadingDigits(text) == [];
    SavedTimeOfText(store, text);
  }

  /** `setSavedTime` on a storage value: only a finite, non-negative time is written. */
  function StoreTime(store: Store, time: JsNumber): (r: Store)
    ensures Storable(time) ==> TIME_KEY in r && Storable(ParseFloat(r[TIME_KEY])) && ParseFloat(r[TIME_KEY]).Value() == time.Value()
    ensures Storable(time) ==> forall k :: k != TIME_KEY ==> (k in r <==> k in store) && (k in store ==> r[k] == store[k])
    ensures !Storable(time) ==> r == store
  {
    if Storable(time) then
      FormatTimeRoundTrip(time);
      store[TIME_KEY := FormatTime(time)]
    else store
  }

  /** What `setSavedTime` writes, `getSavedTime` reads back. */
  lemma SavedTimeRoundTrip(store: Store, time: JsNumber)
    requires Storable(time)
    ensures SavedTime(StoreTime(store, time)).Value() == time.Value()
  {
    FormatTimeRoundTrip(time);
  }

  /** Storing 0 writes the text "0", which reads back as 0, and 0 is not far from itself. */
  lemma ZeroStored(store: Store)
    ensures StoreTime(store, ZERO) == store[TIME_KEY := "0"]
    ensures SavedTime(store[TIME_KEY := "0"]) == ZERO
    ensures !FarFrom(ZERO, 0.0)
  {
    assert FormatTime(ZERO) == "0";
    FormatTimeRoundTrip(ZERO);
  }

  /** The should-play flag is set exactly when it holds the text "1": a missing key or any other text means not playing. */
  function ShouldPlayFrom(store: Store): (b: bool)
    ensures b ==> SHOULD_PLAY_KEY in store && store[SHOULD_PLAY_KEY] == PLAYING
    ensures SHOULD_PLAY_KEY !in store ==> !b
    ensures SHOULD_PLAY_KEY in store && store[SHOULD_PLAY_KEY] != PLAYING ==> !b
  {
    SHOULD_PLAY_KEY in store && store[SHOULD_PLAY_KEY] == PLAYING
  }

  /**
   * What `startFromBeginning` leaves in storage: the flag set and the time
   * "0", which reads back as 0; an element already at 0 then needs a seek
   * only when it is paused.
   */
  lemma StartedStore(s: Store)
    ensures StoreTime(s[SHOULD_PLAY_KEY := PLAYING], ZERO) == s[SHOULD_PLAY_KEY := PLAYING][TIME_KEY := "0"]
    ensures var t := s[SHOULD_PLAY_KEY := PLAYING][TIME_KEY := "0"];
      ShouldPlayFrom(t) && t[SHOULD_PLAY_KEY] == PLAYING && SavedTime(t) == ZERO
    ensures forall a: Audio :: SeekNeeded(a.(currentTime := ZERO), ZERO) == a.paused
  {
    ZeroStored(s[SHOULD_PLAY_KEY := PLAYING]);
  }

  // ---------------------------------------------------------------------------
  // Page and navigation
  // ---------------------------------------------------------------------------

  /** Lower-case mapping of ASCII letters. */
  function LowerChar(c: char): char {
    if 'A' <= c <= 'Z' then (c as int - 'A' as int + 'a' as int) as char else c
  }

  /** `toLowerCase`, character by character. */
  function Lower(s: string): (r: string)
    ensures |r| == |s|
    ensures forall i :: 0 <= i < |r| ==> !('A' <= r[i] <= 'Z')
    ensures forall i :: 0 <= i < |s| && !('A' <= s[i] <= 'Z') ==> r[i] == s[i]
    ensures forall i :: 0 <= i < |s| && 'A' <= s[i] <= 'Z' ==> r[i] as int == s[i] as int + 32
  {
    seq(|s|, i requires 0 <= i < |s| => LowerChar(s[i]))
  }

  predicate EndsWith(s: string, suffix: string) {
    |suffix| <= |s| && s[|s| - |suffix|..] == suffix
  }

  /** The lower-cased path ends in one of the index page's names. */
  predicate EndsInIndexName(p: string) {
    EndsWith(p, "/index.html") || EndsWith(p, "/index.htm") || EndsWith(p, "/") || EndsWith(p, "\\")
  }

  const INDEX_SUFFIXES: set<string> := {"/index.html", "/index.htm", "/", "\\"}

  /** Lower-casing commutes with taking a tail. */
  lemma LowerTail(path: string, k: nat)
    requires k <= |path|
    ensures Lower(path)[k..] == Lower(path[k..])
  {
  }

  /** A path ends in `suffix` after lower-casing exactly when the matching tail lower-cases to it. */
  lemma EndsWithLower(path: string, suffix: string)
    requires |suffix| <= |path|
    ensures EndsWith(Lower(path), suffix) <==> Lower(path[|path| - |suffix|..]) == suffix
  {
    LowerTail(path, |path| - |suffix|);
  }

  /** A tail that lower-cases to an index page's name makes the lower-cased path end in it. */
  lemma IndexTailEnds(path: string, k: nat)
    requires k <= |path| && Lower(path[k..]) in INDEX_SUFFIXES
    ensures EndsInIndexName(Lower(path))
  {
    var suffix := Lower(path[k..]);
    assert path[|path| - |suffix|..] == path[k..];
    EndsWithLower(path, suffix);
    assert suffix == "/index.html" || suffix == "/index.htm" || suffix == "/" || suffix == "\\";
  }

  /** A lower-cased path ending in `suffix` has a tail that lower-cases to it. */
  lemma EndingTail(path: string, suffix: string)
    requires suffix in INDEX_SUFFIXES && EndsWith(Lower(path), suffix)
    ensures var k := |path| - |suffix|; 0 <= k <= |path| && Lower(path[k..]) in INDEX_SUFFIXES
  {
    EndsWithLower(path, suffix);
  }

  /** `isIndexPage` holds exactly when some tail of the path is, ignoring case, an index page's name. */
  lemma IndexNameIff(path: string)
    ensures EndsInIndexName(Lower(path)) <==> exists k :: 0 <= k <= |path| && Lower(path[k..]) in INDEX_SUFFIXES
  {
    if exists k :: 0 <= k <= |path| && Lower(path[k..]) in INDEX_SUFFIXES {
      var k :| 0 <= k <= |path| && Lower(path[k..]) in INDEX_SUFFIXES;
      IndexTailEnds(path, k);
    }
    var p := Lower(path);
    if EndsInIndexName(p) {
      var suffix := if EndsWith(p, "/index.html") then "/index.html"
        else if EndsWith(p, "/index.htm") then "/index.htm"
        else if EndsWith(p, "/") then "/"
        else "\\";
      EndingTail(path, suffix);
    }
  }

  /** `isIndexPage`: the lower-cased path ends in one of the index page's names. */
  function IsIndexPage(path: string): (b: bool)
    ensures b <==> exists k :: 0 <= k <= |path| && Lower(path[k..]) in INDEX_SUFFIXES
  {
    IndexNameIff(path);
    EndsInIndexName(Lower(path))
  }

  /** Lower-casing is idempotent, so the test ignores case. */
  lemma IsIndexPageIgnoresCase(path: string)
    ensures IsIndexPage(Lower(path)) == IsIndexPage(path)
  {
    assert Lower(Lower(path)) == Lower(path);
  }

  /** The entry page's names count whatever their case. */
  lemma IndexPageExamples()
    ensures IsIndexPage("/valentines/INDEX.HTML")
    ensures IsIndexPage("/")
  {
    var upper := "/valentines/INDEX.HTML";
    assert upper[11..] == "/INDEX.HTML";
    assert Lower(upper[11..]) == "/index.html";
    assert Lower("/"[0..]) == "/";
  }

  /** Other pages of the site do not count. */
  lemma OtherPageExample()
    ensures !IsIndexPage("/memories.html")
  {
    var p := Lower("/memories.html");
    assert p[3] == 'm';
    assert p[13] == 'l';
  }

  /** The navigation type: the navigation entry's when it has one, else "navigate". */
  function NavigationType(entryType: Option<string>): (t: string)
    ensures entryType.Some? ==> t == entryType.value
    ensures entryType.None? ==> t == "navigate"
  {
    match entryType
    case Some(t) => t
    case None => "navigate"
  }

  /** A fresh open: the index page, reached without a referrer or by a reload. */
  function IsFreshOpen(indexPage: bool, referrer: string, navType: string): (b: bool)
    ensures !indexPage ==> !b
    ensures indexPage && referrer == "" ==> b
    ensures indexPage && navType == "reload" ==> b
    ensures indexPage && referrer != "" && navType != "reload" ==> !b
  {
    indexPage && (referrer == "" || navType == "reload")
  }

  /** The two `removeItem` calls of a fresh open. */
  function ClearOnFreshOpen(store: Store, isFresh: bool): (r: Store)
    ensures isFresh ==> SHOULD_PLAY_KEY !in r && TIME_KEY !in r
    ensures isFresh ==> forall k :: k != SHOULD_PLAY_KEY && k != TIME_KEY ==> (k in r <==> k in store) && (k in r ==> r[k] == store[k])
    ensures !isFresh ==> r == store
  {
    if isFresh then store - {SHOULD_PLAY_KEY, TIME_KEY} else store
  }

  /** What the page does once it has read the flag. */
  datatype Startup = DelayedStart | Resume | Idle

  /** The startup branch: only the index page starts the song itself; any page resumes a playing song. */
  function StartupAction(shouldPlay: bool, indexPage: bool): (a: Startup)
    ensures a == DelayedStart <==> !shouldPlay && indexPage
    ensures a == Resume <==> shouldPlay
    ensures a == Idle <==> !shouldPlay && !indexPage
  {
    if !shouldPlay && indexPage then DelayedStart
    else if shouldPlay then Resume
    else Idle
  }

  /**
   * A fresh open of the index page, with no referrer or by a reload, forgets
   * the song and schedules a start from 0.
   */
  lemma FreshOpenStartsOver(store: Store, path: string, referrer: string, navType: string)
    requires IsIndexPage(path) && (referrer == "" || navType == "reload")
    ensures var s := ClearOnFreshOpen(store, IsFreshOpen(IsIndexPage(path), referrer, navType));
      !ShouldPlayFrom(s) && SavedTime(s) == ZERO && StartupAction(ShouldPlayFrom(s), true) == DelayedStart
  {
  }

  /** Any other page keeps the session's state, so a playing song is resumed. */
  lemma OtherPageResumes(store: Store, path: string, referrer: string, navType: string)
    requires !IsIndexPage(path) && ShouldPlayFrom(store)
    ensures var s := ClearOnFreshOpen(store, IsFreshOpen(IsIndexPage(path), referrer, navType));
      s == store && StartupAction(ShouldPlayFrom(s), false) == Resume
  {
  }

  // ---------------------------------------------------------------------------
  // The audio element
  // ---------------------------------------------------------------------------

  /** The parts of the shared `<audio>` element the logic reads and writes. */
  datatype Audio = Audio(paused: bool, currentTime: JsNumber, volume: real)

  /** The two user gestures that each unlock playback once. */
  datatype Gesture = Pointer | Key

  /** Requests the page makes of the browser. */
  datatype Effect = StartScheduled(delayMs: nat) | Seek(to: JsNumber) | PlayRequested

  /** `audio.currentTime || 0`: `NaN` and zero read as 0. */
  function OrZero(x: JsNumber): (r: JsNumber)
    ensures r.NaN? == false
    ensures x.NaN? ==> r == ZERO
    ensures x.Infinite? ==> r == x
    ensures x.Decimal? && x.Value() == 0.0 ==> r == ZERO
    ensures x.Decimal? && x.Value() != 0.0 ==> r == x
    ensures r.Decimal? && x.Decimal? ==> r.Value() == x.Value()
  {
    if x.NaN? || (x.Decimal? && x.Value() == 0.0) then ZERO else x
  }

  /** The element is more than the tolerance away from `desired` (an infinite position always is). */
  function FarFrom(current: JsNumber, desired: real): (b: bool)
    ensures current.Infinite? ==> b
    ensures current.NaN? ==> (b <==> Abs(desired) > SEEK_TOLERANCE)
    ensures current.Decimal? ==> (b <==> Abs(current.Value() - desired) > SEEK_TOLERANCE)
  {
    var c := OrZero(current);
    c.Infinite? || (c.Decimal? && Abs(c.Value() - desired) > SEEK_TOLERANCE)
  }

  /** `playAtSavedTime` seeks only a paused element or one that drifted past the tolerance. */
  function SeekNeeded(audio: Audio, desired: JsNumber): (b: bool)
    requires desired.Decimal?
    ensures audio.paused || audio.currentTime.Infinite? ==> b
    ensures audio.currentTime.Decimal? ==>
      (b <==> audio.paused || Abs(audio.currentTime.Value() - desired.Value()) > SEEK_TOLERANCE)
    ensures audio.currentTime.NaN? ==>
      (b <==> audio.paused || Abs(desired.Value()) > SEEK_TOLERANCE)
  {
    audio.paused || FarFrom(audio.currentTime, desired.Value())
  }

  /** The music controller of one page load. */
  class Player {
    /** `isIndexPage`, fixed at load. */
    const indexPage: bool
    /** Session storage. */
    var store: Store
    var shouldPlay: bool
    var audio: Audio
    /** Timers set, seeks and play requests, in order. */
    var effects: seq<Effect>
    /** The gestures whose one-shot unlock listener has not fired yet. */
    var unlockArmed: set<Gesture>

    ghost predicate Valid()
      reads this
    {
      shouldPlay == ShouldPlayFrom(store) && audio.volume == VOLUME
    }

    /**
     * The script running on page load: the fresh-open clearing, the
     * should-play flag, and the startup branch. `playBlocked` says whether
     * the browser refuses to play without a user gesture.
     */
    constructor (path: string, referrer: string, navEntryType: Option<string>, session: Store,
                 element: Audio, playBlocked: bool)
      ensures Valid()
      ensures indexPage == IsIndexPage(path) && unlockArmed == {Pointer, Key}
      ensures store == ClearOnFreshOpen(session, IsFreshOpen(indexPage, referrer, NavigationType(navEntryType)))
      ensures shouldPlay == ShouldPlayFrom(store)
      ensures StartupAction(shouldPlay, indexPage) == DelayedStart ==>
        effects == [StartScheduled(INDEX_DELAY_MS)] && audio == element.(volume := VOLUME)
      ensures StartupAction(shouldPlay, indexPage) == Idle ==>
        effects == [] && audio == element.(volume := VOLUME)
      ensures StartupAction(shouldPlay, indexPage) == Resume ==>
        var desired := SavedTime(store);
        var seek := SeekNeeded(element, desired);
        && effects == (if seek then [Seek(desired)] else []) + [PlayRequested]
        && audio.currentTime == (if seek then desired else element.currentTime)
        && audio.paused == (element.paused && playBlocked)
    {
      indexPage := IsIndexPage(path);
      audio := element.(volume := VOLUME);
      effects := [];
      unlockArmed := {Pointer, Key};
      var navType := NavigationType(navEntryType);
      var freshOpen := IsIndexPage(path) && (referrer == "" || navType == "reload");
      var s := session;
      if freshOpen {
        s := s - {SHOULD_PLAY_KEY};
        s := s - {TIME_KEY};
      }
      store := s;
      shouldPlay := SHOULD_PLAY_KEY in s && s[SHOULD_PLAY_KEY] == PLAYING;
      new;
      if !shouldPlay && indexPage {
        effects := effects + [StartScheduled(INDEX_DELAY_MS)];
      } else if shouldPlay {
        PlayAtSavedTime(playBlocked);
      }
    }

    /** `setTimeSafe`: position the element. */
    method SetTimeSafe(time: JsNumber)
      requires Valid()
      modifies this`audio, this`effects
      ensures audio == old(audio).(currentTime := time)
      ensures effects == old(effects) + [Seek(time)]
      ensures Valid()
    {
      audio := audio.(currentTime := time);
      effects := effects + [Seek(time)];
    }

    /** `setSavedTime`: store only a finite, non-negative time. */
    method SetSavedTime(time: JsNumber)
      requires Valid()
      modifies this`store
      ensures store == StoreTime(old(store), time)
      ensures Valid()
    {
      if !time.Decimal? || time.Value() < 0.0 {
        return;
      }
      store := store[TIME_KEY := FormatTime(time)];
    }

    /**
     * `playAtSavedTime`: nothing unless the song should play; otherwise seek
     * to the saved time when needed and ask to play, which succeeds unless
     * `blocked`.
     */
    method PlayAtSavedTime(blocked: bool)
      requires Valid()
      modifies this`audio, this`effects
      ensures !shouldPlay ==> unchanged(this)
      ensures shouldPlay ==>
        var desired := SavedTime(store);
        var seek := SeekNeeded(old(audio), desired);
        && effects == old(effects) + (if seek then [Seek(desired)] else []) + [PlayRequested]
        && audio.currentTime == (if seek then desired else old(audio).currentTime)
        && audio.paused == (old(audio).paused && blocked)
        && audio.volume == VOLUME
      ensures Valid()
    {
      if !shouldPlay {
        return;
      }
      var desired := SavedTime(store);
      assert SeekNeeded(audio, desired) == (audio.paused || FarFrom(audio.currentTime, desired.Value()));
      if audio.paused || FarFrom(audio.currentTime, desired.Value()) {
        SetTimeSafe(desired);
      }
      audio := audio.(volume := VOLUME);
      effects := effects + [PlayRequested];
      if !blocked {
        audio := audio.(paused := false);
      }
    }

    /** `startFromBeginning`, run by the index page's delayed start. */
    method StartFromBeginning(blocked: bool)
      requires Valid()
      modifies this`shouldPlay, this`store, this`audio, this`effects
      ensures Valid()
      ensures shouldPlay && store[SHOULD_PLAY_KEY] == PLAYING && SavedTime(store).Value() == 0.0
      ensures store == old(store)[SHOULD_PLAY_KEY := PLAYING][TIME_KEY := "0"]
      ensures effects == old(effects) + [Seek(ZERO)] + (if old(audio).paused then [Seek(ZERO)] else []) + [PlayRequested]
      ensures audio.currentTime == ZERO && audio.paused == (old(audio).paused && blocked)
    {
      shouldPlay := true;
      store := store[SHOULD_PLAY_KEY := PLAYING];
      StartedStore(old(store));
      SetSavedTime(ZERO);
      assert store == old(store)[SHOULD_PLAY_KEY := PLAYING][TIME_KEY := "0"];
      SetTimeSafe(ZERO);
      assert SeekNeeded(audio, SavedTime(store)) == audio.paused;
      PlayAtSavedTime(blocked);
    }

    /** `persistTime`, run every 500 ms and on `pagehide`: save the position only while playing. */
    method PersistTime()
      requires Valid()
      modifies this`store
      ensures store == if shouldPlay && !audio.paused then StoreTime(old(store), OrZero(audio.currentTime)) else old(store)
      ensures Valid()
    {
      if !shouldPlay {
        return;
      }
      if audio.paused {
        return;
      }
      SetSavedTime(OrZero(audio.currentTime));
    }

    /** `unlock`: the first pointer press and the first key press each retry playback. */
    method Unlock(gesture: Gesture, blocked: bool)
      requires Valid()
      modifies this`unlockArmed, this`audio, this`effects
      ensures unlockArmed == old(unlockArmed) - {gesture}
      ensures gesture !in old(unlockArmed) ==> audio == old(audio) && effects == old(effects)
      ensures gesture in old(unlockArmed) && shouldPlay ==>
        var desired := SavedTime(store);
        var seek := SeekNeeded(old(audio), desired);
        && effects == old(effects) + (if seek then [Seek(desired)] else []) + [PlayRequested]
        && audio.paused == (old(audio).paused && blocked)
        && audio.currentTime == (if seek then desired else old(audio).currentTime)
        && audio.volume == VOLUME
      ensures !shouldPlay ==> audio == old(audio) && effects == old(effects)
      ensures Valid()
    {
      if gesture in unlockArmed {
        unlockArmed := unlockArmed - {gesture};
        PlayAtSavedTime(blocked);
      }
    }

    /** The `visibilitychange` listener: coming back to the tab retries playback. */
    method VisibilityChanged(visible: bool, blocked: bool)
      requires Valid()
      modifies this`audio, this`effects
      ensures !visible || !shouldPlay ==> audio == old(audio) && effects == old(effects)
      ensures visible && shouldPlay ==>
        var desired := SavedTime(store);
        var seek := SeekNeeded(old(audio), desired);
        && effects == old(effects) + (if seek then [Seek(desired)] else []) + [PlayRequested]
        && audio.paused == (old(audio).paused && blocked)
        && audio.currentTime == (if seek then desired else old(audio).currentTime)
        && audio.volume == VOLUME
      ensures Valid()
    {
      if visible {
        PlayAtSavedTime(blocked);
      }
    }

    /** The browser plays, pauses or moves the element on its own. */
    method MediaChanged(paused: bool, currentTime: JsNumber)
      requires Valid()
      modifies this`audio
      ensures audio == old(audio).(paused := paused, currentTime := currentTime)
      ensures Valid()
    {
      audio := audio.(paused := paused, currentTime := currentTime);
    }
  }
}


/**
 * The link service: generating a candidate alias, creating a short link and
 * resolving a short alias to its original URL while counting the redirect.
 *
 * `CreateOutcome` and `ResolveOutcome` give each operation's result and the
 * table's new value as functions of the old value; the methods `CreateShortLink`
 * and `GetOriginalUrl` perform the same steps against a `LinkTable` and are
 * proved to match them; the lemmas state what the operations guarantee.
 */
module LinkService {
  import opened Wrappers
  import opened Errors
  import opened LinkSchema
  import opened LinkStore

  // ---------------------------------------------------------------------------
  // Candidate aliases
  // ---------------------------------------------------------------------------

  /** A digit of base 36 as JavaScript writes it: `0-9` or lowercase `a-z`. */
  predicate IsBase36Digit(c: char)
  {
    ('0' <= c <= '9') || ('a' <= c <= 'z')
  }

  predicate AllBase36(s: string)
  {
    forall i :: 0 <= i < |s| ==> IsBase36Digit(s[i])
  }

  /**
   * `x.toString(36)` for the random number `x` in [0, 1), given the base-36
   * digits of its fraction: `"0"` when `x` is zero, `"0."` followed by the
   * digits otherwise.
   */
  function RandomToString36(fraction: string): string
    requires AllBase36(fraction)
  {
    if fraction == [] then "0" else "0." + fraction
  }

  /** An index argument of `String.prototype.substring`, clamped into `[0, n]`. */
  function ClampIndex(i: int, n: nat): nat
  {
    if i < 0 then 0 else if i > n then n else i
  }

  /** `s.substring(start, end)`: both indexes clamped, and swapped when `start` exceeds `end`. */
  function JsSubstring(s: string, start: int, end: int): (r: string)
    ensures 0 <= start <= end <= |s| ==> r == s[start..end]
    ensures |r| <= |s|
  {
    var a, b := ClampIndex(start, |s|), ClampIndex(end, |s|);
    if a <= b then s[a..b] else s[b..a]
  }

  function Min(a: int, b: int): int
  {
    if a <= b then a else b
  }

  /**
   * `Math.random().toString(36).substring(2, 9)`: the first seven fraction
   * digits, or all of them when there are fewer (none when the random number is zero).
   */
  function GenerateUniqueShortAlias(fraction: string): (r: string)
    requires AllBase36(fraction)
    ensures |r| <= 7 && AllBase36(r)
    ensures r == fraction[..Min(7, |fraction|)]
    ensures |fraction| >= 7 ==> |r| == 7
  {
    var text := RandomToString36(fraction);
    var r := JsSubstring(text, 2, 9);
    if fraction == [] then
      assert r == [];
      r
    else
      assert r == text[2..Min(9, |text|)] == text[2..][..Min(7, |fraction|)];
      r
  }

  // ---------------------------------------------------------------------------
  // What the service throws
  // ---------------------------------------------------------------------------

  /** What an operation throws: an application error, or a store error passed through unchanged. */
  datatype ServiceError = Thrown(error: CustomError) | Rethrown(cause: StoreError)

  function AliasInUseMessage(alias: string): string
  {
    "The alias '" + alias + "' is already in use."
  }

  function ShortAliasExistsMessage(shortAlias: string): string
  {
    "The generated short URL '" + shortAlias + "' already exists. Please try again or provide a custom alias."
  }

  const NotFoundMessage: string := "Short URL not found."
  const ExpiredMessage: string := "Short URL has expired."

  // ---------------------------------------------------------------------------
  // Create
  // ---------------------------------------------------------------------------

  /** JavaScript truthiness of an optional string: present and non-empty. */
  predicate Truthy(o: Option<string>)
  {
    o.Some? && o.value != ""
  }

  /** `expiresAt ? new Date(expiresAt) : null`, with `parseDate` standing for the date constructor. */
  function ExpiryOf(expiresAt: Option<string>, parseDate: string -> int): Option<int>
  {
    if Truthy(expiresAt) then Some(parseDate(expiresAt.value)) else None
  }

  /** The `shortAlias` a create uses: the custom alias when one is given, a generated candidate otherwise. */
  function ChosenShortAlias(data: CreateLinkDto, fraction: string): (s: string)
    requires AllBase36(fraction)
    ensures Truthy(data.alias) ==> s == data.alias.value
    ensures !Truthy(data.alias) ==> |s| <= 7 && AllBase36(s)
  {
    if Truthy(data.alias) then data.alias.value else GenerateUniqueShortAlias(fraction)
  }

  /** The row a create inserts: the `alias` input is stored as given, the counter starts at zero. */
  function NewRow(data: CreateLinkDto, shortAlias: string, parseDate: string -> int): LinkData
  {
    LinkData(data.originalUrl, shortAlias, data.alias, ExpiryOf(data.expiresAt, parseDate), 0)
  }

  /** The custom alias is already some link's `alias`: the pre-insert check rejects it. */
  ghost predicate AliasTaken(db: Db, data: CreateLinkDto)
  {
    Truthy(data.alias) && AliasUsed(db.rows, data.alias.value)
  }

  /** `createShortLink(data)`: the result and the table's new value. */
  ghost function CreateOutcome(db: Db, data: CreateLinkDto, fraction: string, parseDate: string -> int,
                               fault: Option<StoreError>): (out: (Db, Result<Link, ServiceError>))
    requires AllBase36(fraction)
  {
    if AliasTaken(db, data) then
      (db, Failure(Thrown(NewConflictError(Some(AliasInUseMessage(data.alias.value))))))
    else
      var shortAlias := ChosenShortAlias(data, fraction);
      var (db', r) := Insert(db, NewRow(data, shortAlias, parseDate), fault);
      match r
      case Success(link) => (db', Success(link))
      case Failure(e) =>
        if e.code == UniqueViolationCode then
          (db', Failure(Thrown(NewConflictError(Some(ShortAliasExistsMessage(shortAlias))))))
        else
          (db', Failure(Rethrown(e)))
  }

  /** Create a short link in `links`. */
  method CreateShortLink(links: LinkTable, data: CreateLinkDto, fraction: string, parseDate: string -> int,
                         fault: Option<StoreError>) returns (r: Result<Link, ServiceError>)
    requires links.Valid() && AllBase36(fraction)
    modifies links
    ensures links.Valid()
    ensures (links.Model(), r) == CreateOutcome(old(links.Model()), data, fraction, parseDate, fault)
  {
    var shortAlias: string;
    if Truthy(data.alias) {
      var existing := links.FindUniqueByAlias(data.alias.value);
      if existing.Some? {
        return Failure(Thrown(NewConflictError(Some(AliasInUseMessage(data.alias.value)))));
      }
      shortAlias := data.alias.value;
    } else {
      shortAlias := GenerateUniqueShortAlias(fraction);
    }
    var created := links.Create(NewRow(data, shortAlias, parseDate), fault);
    match created
    case Success(link) =>
      r := Success(link);
    case Failure(e) =>
      if e.code == UniqueViolationCode {
        r := Failure(Thrown(NewConflictError(Some(ShortAliasExistsMessage(shortAlias)))));
      } else {
        r := Failure(Rethrown(e));
      }
  }

  /** A custom alias some link already holds as its `alias` is a conflict, and nothing is inserted. */
  lemma CreateWithTakenAlias(db: Db, data: CreateLinkDto, fraction: string, parseDate: string -> int,
                             fault: Option<StoreError>)
    requires AllBase36(fraction)
    requires Truthy(data.alias) && AliasUsed(db.rows, data.alias.value)
    ensures var out := CreateOutcome(db, data, fraction, parseDate, fault);
      out.0 == db && out.1.Failure? && out.1.error.Thrown? &&
      out.1.error.error.statusCode == 409 &&
      out.1.error.error.message == AliasInUseMessage(data.alias.value)
  {
  }

  /**
   * A free custom alias (no link holds it as `alias` or as `shortAlias`)
   * adds exactly one row: its `shortAlias` and `alias` are the given alias,
   * its counter is zero, and every existing row stays as it was.
   */
  lemma CreateWithFreeAlias(db: Db, data: CreateLinkDto, fraction: string, parseDate: string -> int)
    requires Consistent(db) && AllBase36(fraction)
    requires Truthy(data.alias)
    requires !AliasUsed(db.rows, data.alias.value) && !ShortAliasUsed(db.rows, data.alias.value)
    ensures var out := CreateOutcome(db, data, fraction, parseDate, None);
      out.1.Success? &&
      var link := out.1.value;
      link.shortAlias == data.alias.value && link.alias == data.alias &&
      link.originalUrl == data.originalUrl && link.clickCount == 0 &&
      link.expiresAt == ExpiryOf(data.expiresAt, parseDate) &&
      link.id !in db.rows && out.0.rows == db.rows[link.id := link] &&
      |out.0.rows| == |db.rows| + 1
  {
    var out := CreateOutcome(db, data, fraction, parseDate, None);
    assert !ViolatesUnique(db.rows, NewRow(data, data.alias.value, parseDate));
    assert db.nextId !in db.rows;
    assert out.0.rows.Keys == db.rows.Keys + {db.nextId};
  }

  /**
   * Without an alias, a candidate no link holds as `shortAlias` is stored as
   * `shortAlias` with a null `alias`; `expiresAt` is the parsed time when
   * one was supplied and null otherwise.
   */
  lemma CreateWithGeneratedAlias(db: Db, data: CreateLinkDto, fraction: string, parseDate: string -> int)
    requires AllBase36(fraction)
    requires data.alias.None?
    requires !ShortAliasUsed(db.rows, GenerateUniqueShortAlias(fraction))
    ensures var out := CreateOutcome(db, data, fraction, parseDate, None);
      out.1.Success? &&
      var link := out.1.value;
      link.shortAlias == GenerateUniqueShortAlias(fraction) && |link.shortAlias| <= 7 &&
      link.alias.None? && link.originalUrl == data.originalUrl && link.clickCount == 0 &&
      link.expiresAt == ExpiryOf(data.expiresAt, parseDate) &&
      (Truthy(data.expiresAt) ==> link.expiresAt == Some(parseDate(data.expiresAt.value))) &&
      (!Truthy(data.expiresAt) ==> link.expiresAt.None?) &&
      out.0.rows == db.rows[db.nextId := link]
  {
    assert !ViolatesUnique(db.rows, NewRow(data, GenerateUniqueShortAlias(fraction), parseDate));
  }

  /**
   * Once the pre-insert check passes, a row the unique indexes refuse (a custom
   * alias equal to another link's generated `shortAlias`, or a repeated
   * candidate) is a conflict naming the short alias, and nothing is inserted.
   */
  lemma CreateRefusedByIndex(db: Db, data: CreateLinkDto, fraction: string, parseDate: string -> int)
    requires AllBase36(fraction)
    requires !AliasTaken(db, data)
    requires ViolatesUnique(db.rows, NewRow(data, ChosenShortAlias(data, fraction), parseDate))
    ensures var out := CreateOutcome(db, data, fraction, parseDate, None);
      out.0 == db &&
      out.1 == Failure(Thrown(NewConflictError(Some(ShortAliasExistsMessage(ChosenShortAlias(data, fraction)))))) &&
      out.1.error.error.statusCode == 409
  {
  }

  /** The pre-insert check looks only at `alias`: a custom alias that is another link's generated `shortAlias` is caught by the index. */
  lemma CustomAliasClashesWithShortAlias(db: Db, data: CreateLinkDto, fraction: string, parseDate: string -> int,
                                         other: nat)
    requires AllBase36(fraction)
    requires Truthy(data.alias) && !AliasUsed(db.rows, data.alias.value)
    requires other in db.rows && db.rows[other].shortAlias == data.alias.value
    ensures var out := CreateOutcome(db, data, fraction, parseDate, None);
      out.0 == db &&
      out.1 == Failure(Thrown(NewConflictError(Some(ShortAliasExistsMessage(data.alias.value)))))
  {
    assert ShortAliasUsed(db.rows, data.alias.value);
  }

  /** A store failure other than a unique-constraint violation is rethrown unchanged, and nothing is inserted. */
  lemma CreateStoreFaultPropagates(db: Db, data: CreateLinkDto, fraction: string, parseDate: string -> int,
                                   e: StoreError)
    requires AllBase36(fraction)
    requires !AliasTaken(db, data) && e.code != UniqueViolationCode
    ensures CreateOutcome(db, data, fraction, parseDate, Some(e)) == (db, Failure(Rethrown(e)))
  {
  }

  /**
   * Create is all or nothing: a failure leaves the table as it was; a success
   * adds one fresh row, previously unused as a `shortAlias`, and changes no
   * other row.  Every application error it throws is a 409 conflict.
   */
  lemma CreateAllOrNothing(db: Db, data: CreateLinkDto, fraction: string, parseDate: string -> int,
                           fault: Option<StoreError>)
    requires Consistent(db) && AllBase36(fraction)
    ensures var out := CreateOutcome(db, data, fraction, parseDate, fault);
      (out.1.Failure? ==> out.0 == db) &&
      (out.1.Failure? && out.1.error.Thrown? ==> out.1.error.error.statusCode == 409) &&
      (out.1.Success? ==>
        out.1.value.id !in db.rows &&
        out.0.rows == db.rows[out.1.value.id := out.1.value] &&
        !ShortAliasUsed(db.rows, out.1.value.shortAlias) &&
        ShortAliasUsed(out.0.rows, out.1.value.shortAlias) &&
        out.1.value.clickCount == 0)
  {
    var out := CreateOutcome(db, data, fraction, parseDate, fault);
    if out.1.Success? {
      assert db.nextId !in db.rows;
      assert out.0.rows[out.1.value.id].shortAlias == out.1.value.shortAlias;
    }
  }

  /** After any create, no two links share a `shortAlias` and no two non-null aliases coincide. */
  lemma CreatePreservesConsistent(db: Db, data: CreateLinkDto, fraction: string, parseDate: string -> int,
                                  fault: Option<StoreError>)
    requires Consistent(db) && AllBase36(fraction)
    ensures Consistent(CreateOutcome(db, data, fraction, parseDate, fault).0)
  {
    if !AliasTaken(db, data) {
      InsertPreservesConsistent(db, NewRow(data, ChosenShortAlias(data, fraction), parseDate), fault);
    }
  }

  /** Every link with an `alias` uses it as its `shortAlias`. */
  ghost predicate AliasIsShortAlias(db: Db)
  {
    forall id :: id in db.rows && db.rows[id].alias.Some? ==> db.rows[id].alias.value == db.rows[id].shortAlias
  }

  /**
   * As long as the service is never handed an empty alias string (the schema
   * guarantees it), every custom link's `alias` stays equal to its `shortAlias`.
   */
  lemma CreateKeepsAliasIsShortAlias(db: Db, data: CreateLinkDto, fraction: string, parseDate: string -> int,
                                     fault: Option<StoreError>)
    requires AliasIsShortAlias(db) && AllBase36(fraction)
    requires data.alias != Some("")
    ensures AliasIsShortAlias(CreateOutcome(db, data, fraction, parseDate, fault).0)
  {
  }

  /**
   * For a body the schema accepts, the service's `if (alias)` takes the
   * custom-alias branch exactly when the body supplied an alias string.
   */
  lemma AcceptedBodyChoosesBranch(body: CreateLinkBody, isUrl: string -> bool, isDatetime: string -> bool)
    requires Accepts(body, isUrl, isDatetime)
    ensures Truthy(Parse(body, isUrl, isDatetime).value.alias) <==> body.alias.Str?
    ensures Parse(body, isUrl, isDatetime).value.alias != Some("")
  {
    AliasAcceptedIff(if body.alias.Str? then body.alias.text else "");
  }

  // ---------------------------------------------------------------------------
  // Resolve
  // ---------------------------------------------------------------------------

  /** `expiresAt` is set and strictly before `now`. */
  predicate Expired(link: Link, now: int)
  {
    link.expiresAt.Some? && link.expiresAt.value < now
  }

  /** `getOriginalUrl(shortAlias)` at time `now`: the result and the table's new value. */
  ghost function ResolveOutcome(db: Db, shortAlias: string, now: int): (out: (Db, Result<string, ServiceError>))
    requires Consistent(db)
  {
    match FindByShortAlias(db, shortAlias)
    case None => (db, Failure(Thrown(NewNotFoundError(Some(NotFoundMessage)))))
    case Some(link) =>
      if Expired(link, now) then (db, Failure(Thrown(NewNotFoundError(Some(ExpiredMessage)))))
      else (IncrementClickCount(db, link.id), Success(link.originalUrl))
  }

  /** Resolve a short alias in `links` at time `now`. */
  method GetOriginalUrl(links: LinkTable, shortAlias: string, now: int) returns (r: Result<string, ServiceError>)
    requires links.Valid()
    modifies links
    ensures links.Valid() && Consistent(old(links.Model()))
    ensures (links.Model(), r) == ResolveOutcome(old(links.Model()), shortAlias, now)
  {
    var found := links.FindUniqueByShortAlias(shortAlias);
    if found.None? {
      return Failure(Thrown(NewNotFoundError(Some(NotFoundMessage))));
    }
    var link := found.value;
    if link.expiresAt.Some? && link.expiresAt.value < now {
      return Failure(Thrown(NewNotFoundError(Some(ExpiredMessage))));
    }
    var _ := links.IncrementClickCountOf(link.id);
    r := Success(link.originalUrl);
  }

  /** An unknown short alias is a 404 "Short URL not found." and changes nothing. */
  lemma ResolveUnknown(db: Db, shortAlias: string, now: int)
    requires Consistent(db) && !ShortAliasUsed(db.rows, shortAlias)
    ensures var out := ResolveOutcome(db, shortAlias, now);
      out.0 == db && out.1.Failure? && out.1.error.Thrown? &&
      out.1.error.error.statusCode == 404 && out.1.error.error.message == "Short URL not found."
  {
  }

  /** A link whose `expiresAt` is strictly before `now` is a 404 "Short URL has expired."; its counter is untouched. */
  lemma ResolveExpired(db: Db, shortAlias: string, now: int, id: nat)
    requires Consistent(db) && id in db.rows && db.rows[id].shortAlias == shortAlias
    requires db.rows[id].expiresAt.Some? && db.rows[id].expiresAt.value < now
    ensures var out := ResolveOutcome(db, shortAlias, now);
      out.0 == db && out.1.Failure? && out.1.error.Thrown? &&
      out.1.error.error.statusCode == 404 && out.1.error.error.message == "Short URL has expired."
  {
  }

  /**
   * A link that has not expired (including one expiring exactly at `now`) is
   * served: its `originalUrl` is returned and its counter goes up by exactly
   * one; every other field and every other link stay as they were.
   */
  lemma ResolveServes(db: Db, shortAlias: string, now: int, id: nat)
    requires Consistent(db) && id in db.rows && db.rows[id].shortAlias == shortAlias
    requires db.rows[id].expiresAt.None? || now <= db.rows[id].expiresAt.value
    ensures var out := ResolveOutcome(db, shortAlias, now);
      out.1 == Success(db.rows[id].originalUrl) &&
      out.0.nextId == db.nextId && out.0.rows.Keys == db.rows.Keys &&
      out.0.rows[id] == db.rows[id].(clickCount := db.rows[id].clickCount + 1) &&
      (forall other :: other in db.rows && other != id ==> out.0.rows[other] == db.rows[other])
  {
  }

  /** Resolve succeeds exactly when the short alias exists and its link has not expired; otherwise it changes nothing. */
  lemma ResolveSucceedsIff(db: Db, shortAlias: string, now: int)
    requires Consistent(db)
    ensures var out := ResolveOutcome(db, shortAlias, now);
      (out.1.Success? <==>
        (ShortAliasUsed(db.rows, shortAlias) && !Expired(FindByShortAlias(db, shortAlias).value, now))) &&
      (out.1.Failure? ==> out.0 == db && out.1.error.Thrown? && out.1.error.error.statusCode == 404)
  {
  }

  /** Resolving changes only a counter, so every custom link's `alias` stays equal to its `shortAlias`. */
  lemma ResolveKeepsAliasIsShortAlias(db: Db, shortAlias: string, now: int)
    requires Consistent(db) && AliasIsShortAlias(db)
    ensures AliasIsShortAlias(ResolveOutcome(db, shortAlias, now).0)
  {
  }

  /** Resolving never breaks the uniqueness of `shortAlias` and `alias`. */
  lemma ResolvePreservesConsistent(db: Db, shortAlias: string, now: int)
    requires Consistent(db)
    ensures Consistent(ResolveOutcome(db, shortAlias, now).0)
  {
    var found := FindByShortAlias(db, shortAlias);
    if found.Some? && !Expired(found.value, now) {
      IncrementPreservesConsistent(db, found.value.id);
    }
  }

  /**
   * A link just created without an expiry is served by its short alias at any
   * time, and its counter goes from 0 to 1.
   */
  lemma CreateThenResolve(db: Db, data: CreateLinkDto, fraction: string, parseDate: string -> int,
                                             fault: Option<StoreError>, now: int)
    requires Consistent(db) && AllBase36(fraction) && data.expiresAt.None?
    requires CreateOutcome(db, data, fraction, parseDate, fault).1.Success?
    ensures var (db1, created) := CreateOutcome(db, data, fraction, parseDate, fault);
      Consistent(db1) &&
      var (db2, resolved) := ResolveOutcome(db1, created.value.shortAlias, now);
      resolved == Success(data.originalUrl) && db2.rows[created.value.id].clickCount == 1
  {
    var (db1, created) := CreateOutcome(db, data, fraction, parseDate, fault);
    CreatePreservesConsistent(db, data, fraction, parseDate, fault);
    CreateAllOrNothing(db, data, fraction, parseDate, fault);
    var link := created.value;
    assert link.id in db1.rows && db1.rows[link.id] == link;
    ResolveServes(db1, link.shortAlias, now, link.id);
  }

  // ---------------------------------------------------------------------------
  // The end-to-end scenarios, checked against the contracts alone
  // ---------------------------------------------------------------------------

  /** A custom alias is created once with the given fields, and refused with a 409 the second time. */
  method CustomAliasScenario()
  {
    var links := new LinkTable();
    var parseDate := (s: string) => 0;
    var custom := CreateLinkDto("https://example.com/first-test", None, Some("existing-test-alias"));
    var first := CreateShortLink(links, custom, "", parseDate, None);
    assert first.Success? && first.value.alias == Some("existing-test-alias");
    assert first.value.shortAlias == "existing-test-alias" && first.value.clickCount == 0;
    assert links.rows[first.value.id] == first.value;

    var again := CreateShortLink(links, custom.(originalUrl := "https://example.com/second-test"), "", parseDate, None);
    assert again.Failure? && again.error.error.statusCode == 409;
    assert again.error.error.message == AliasInUseMessage("existing-test-alias");
  }

  /** A generated link is served once, which sets its counter to 1; an unknown alias is not found. */
  method RedirectScenario(now: int)
  {
    var links := new LinkTable();
    var parseDate := (s: string) => 0;
    var generated := CreateLinkDto("https://www.example.org/redirect-test", None, None);
    assert GenerateUniqueShortAlias("4fzyo82mvyr") == "4fzyo82";
    var created := CreateShortLink(links, generated, "4fzyo82mvyr", parseDate, None);
    assert created.Success? && created.value.shortAlias == "4fzyo82";
    assert links.rows[created.value.id] == created.value && created.value.expiresAt.None?;

    var url := GetOriginalUrl(links, "4fzyo82", now);
    assert url == Success("https://www.example.org/redirect-test");
    assert links.rows[created.value.id].clickCount == 1;

    var missing := GetOriginalUrl(links, "non_existent_123", now);
    assert missing.Failure? && missing.error.error.message == "Short URL not found.";
  }
}

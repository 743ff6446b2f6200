/**
 * The request-body schema for creating a link: which bodies are accepted and
 * the value the service receives for an accepted one.  The URL and ISO 8601
 * date-time checks belong to the validation library; they are passed in as
 * uninterpreted predicates `isUrl` and `isDatetime`.
 */
module LinkSchema {
  import opened Wrappers

  /** One field of a JSON request body: missing, `null`, a string, or any other JSON value. */
  datatype Field = Missing | Null | Str(text: string) | NonString

  /** The raw body of a create request. */
  datatype CreateLinkBody = CreateLinkBody(originalUrl: Field, expiresAt: Field, alias: Field)

  /** The parsed body the service works on; a missing or `null` field becomes `None`. */
  datatype CreateLinkDto = CreateLinkDto(originalUrl: string, expiresAt: Option<string>, alias: Option<string>)

  const AliasMinLength: nat := 1
  const AliasMaxLength: nat := 20

  /** The character class `[a-zA-Z0-9_-]`. */
  predicate IsAliasChar(c: char)
  {
    ('a' <= c <= 'z') || ('A' <= c <= 'Z') || ('0' <= c <= '9') || c == '_' || c == '-'
  }

  /** The pattern `^[a-zA-Z0-9_-]+$`: one character of the class, then either the end or more of the pattern. */
  predicate MatchesAliasPattern(s: string)
    decreases |s|
  {
    |s| >= 1 && IsAliasChar(s[0]) && (|s| == 1 || MatchesAliasPattern(s[1..]))
  }

  /** A string alias passes `.min(1)`, `.max(20)` and `.regex(...)`. */
  predicate AliasStringOk(s: string)
  {
    AliasMinLength <= |s| && |s| <= AliasMaxLength && MatchesAliasPattern(s)
  }

  /** `alias`: a valid string, `undefined` or `null`. */
  predicate AliasOk(f: Field)
  {
    match f
    case Missing => true
    case Null => true
    case Str(s) => AliasStringOk(s)
    case NonString => false
  }

  /** `originalUrl`: a string in URL format with at least one character. */
  predicate OriginalUrlOk(f: Field, isUrl: string -> bool)
  {
    f.Str? && isUrl(f.text) && |f.text| >= 1
  }

  /** `expiresAt`: `undefined`, `null`, or an ISO 8601 date-time string. */
  predicate ExpiresAtOk(f: Field, isDatetime: string -> bool)
  {
    match f
    case Missing => true
    case Null => true
    case Str(s) => isDatetime(s)
    case NonString => false
  }

  /** The whole object schema accepts the body. */
  predicate Accepts(body: CreateLinkBody, isUrl: string -> bool, isDatetime: string -> bool)
  {
    OriginalUrlOk(body.originalUrl, isUrl) && ExpiresAtOk(body.expiresAt, isDatetime) && AliasOk(body.alias)
  }

  /** The string a field holds, if it holds one. */
  function StringOf(f: Field): Option<string>
  {
    if f.Str? then Some(f.text) else None
  }

  /** Schema parsing: the typed value for an accepted body, nothing for a rejected one. */
  function Parse(body: CreateLinkBody, isUrl: string -> bool, isDatetime: string -> bool): (r: Option<CreateLinkDto>)
    ensures r.Some? <==>
      (body.originalUrl.Str? && body.originalUrl.text != "" && isUrl(body.originalUrl.text)) &&
      (body.alias.Str? ==>
        1 <= |body.alias.text| <= 20 && forall i :: 0 <= i < |body.alias.text| ==> IsAliasChar(body.alias.text[i])) &&
      (body.alias.Missing? || body.alias.Null? || body.alias.Str?) &&
      (body.expiresAt.Str? ==> isDatetime(body.expiresAt.text)) &&
      (body.expiresAt.Missing? || body.expiresAt.Null? || body.expiresAt.Str?)
    ensures r.Some? ==> body.originalUrl == Str(r.value.originalUrl)
    ensures r.Some? ==> (r.value.alias.Some? <==> body.alias.Str?) && (body.alias.Str? ==> r.value.alias == Some(body.alias.text))
    ensures r.Some? ==> (r.value.expiresAt.Some? <==> body.expiresAt.Str?) && (body.expiresAt.Str? ==> r.value.expiresAt == Some(body.expiresAt.text))
  {
    AliasAcceptedIff(if body.alias.Str? then body.alias.text else "");
    if Accepts(body, isUrl, isDatetime) then
      Some(CreateLinkDto(body.originalUrl.text, StringOf(body.expiresAt), StringOf(body.alias)))
    else
      None
  }

  /** The regular expression matches exactly the non-empty strings over the alias character class. */
  lemma {:induction false} AliasPatternIff(s: string)
    ensures MatchesAliasPattern(s) <==> |s| >= 1 && forall i :: 0 <= i < |s| ==> IsAliasChar(s[i])
    decreases |s|
  {
    if |s| > 1 {
      AliasPatternIff(s[1..]);
      assert forall i :: 1 <= i < |s| ==> s[i] == s[1..][i - 1];
    }
  }

  /** A string alias is accepted exactly when it has 1 to 20 characters, each a letter, digit, `-` or `_`. */
  lemma AliasAcceptedIff(s: string)
    ensures AliasOk(Str(s)) <==> 1 <= |s| <= 20 && forall i :: 0 <= i < |s| ==> IsAliasChar(s[i])
  {
    AliasPatternIff(s);
  }

  /** An absent or null alias is always accepted; any non-string alias is rejected. */
  lemma NoAliasAccepted()
    ensures AliasOk(Missing) && AliasOk(Null) && !AliasOk(NonString)
  {
  }

  /** An accepted body never hands the service an empty alias string. */
  lemma AcceptedAliasNonEmpty(body: CreateLinkBody, isUrl: string -> bool, isDatetime: string -> bool)
    requires Accepts(body, isUrl, isDatetime)
    ensures Parse(body, isUrl, isDatetime).value.alias.Some? ==> Parse(body, isUrl, isDatetime).value.alias.value != ""
  {
  }
}

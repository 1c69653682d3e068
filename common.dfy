/** Vocabulary shared by every route of the rating service: optional values and
    results, account roles, the replies a route can give instead of a success,
    and the text operations the routes (and the database's case-insensitive
    `contains`) apply to strings. */
module Common {

  datatype Option<T> = None | Some(value: T)

  datatype Result<T, E> = Ok(value: T) | Err(error: E)

  /** The `role` enum of the user table. */
  datatype Role = ADMIN | USER | OWNER

  function RoleName(r: Role): string
  {
    match r
    case ADMIN => "ADMIN"
    case USER => "USER"
    case OWNER => "OWNER"
  }

  /** The role a string names, if any: `z.enum(['ADMIN', 'USER', 'OWNER'])`. */
  function ParseRole(s: string): (r: Option<Role>)
    ensures forall role :: RoleName(role) == s <==> r == Some(role)
  {
    if s == "ADMIN" then Some(ADMIN)
    else if s == "USER" then Some(USER)
    else if s == "OWNER" then Some(OWNER)
    else None
  }

  /** The character classes of the two password patterns: `/[A-Z]/` and `/[^A-Za-z0-9]/`. */
  datatype CharClass = UpperLetter | NonAlphanumeric

  predicate IsAsciiAlphanumeric(c: char)
  {
    ('A' <= c <= 'Z') || ('a' <= c <= 'z') || ('0' <= c <= '9')
  }

  predicate InClass(cc: CharClass, c: char)
  {
    match cc
    case UpperLetter => 'A' <= c <= 'Z'
    case NonAlphanumeric => !IsAsciiAlphanumeric(c)
  }

  /** What a validation failure reports for one field (a zod issue, without its message text). */
  datatype IssueCode =
    | InvalidType
    | TooSmall(minimum: int)
    | TooBig(maximum: int)
    | PatternMismatch(pattern: CharClass)
    | InvalidEmail
    | NotInteger
    | InvalidEnumValue

  datatype Issue = Issue(path: string, code: IssueCode)

  /** Every way a route answers other than with its success payload. */
  datatype Failure =
    | BadRequest(issues: seq<Issue>)   // 400 with the zod issue list
    | OldPasswordIncorrect             // 400 'Old password incorrect'
    | InvalidCredentials               // 401 'Invalid credentials'
    | NotFound                         // 404
    | Conflict(message: string)        // 409
    | Unhandled                        // the query layer raised and the route does not catch it

  /** The HTTP status each failure is sent with (none for an uncaught error). */
  function Status(f: Failure): (code: Option<int>)
    ensures code.None? <==> f.Unhandled?
    ensures code.Some? ==> 400 <= code.value < 500
    ensures code == Some(400) <==> f.BadRequest? || f.OldPasswordIncorrect?
    ensures code == Some(401) <==> f.InvalidCredentials?
    ensures code == Some(404) <==> f.NotFound?
    ensures code == Some(409) <==> f.Conflict?
  {
    match f
    case BadRequest(_) => Some(400)
    case OldPasswordIncorrect => Some(400)
    case InvalidCredentials => Some(401)
    case NotFound => Some(404)
    case Conflict(_) => Some(409)
    case Unhandled => None
  }

  // ---------------------------------------------------------------------------
  // Text

  /** ASCII lower-casing of one character. */
  function LowerChar(c: char): char
  {
    if 'A' <= c <= 'Z' then (c as int + 32) as char else c
  }

  function Lower(s: string): (r: string)
    ensures |r| == |s|
  {
    seq(|s|, i requires 0 <= i < |s| => LowerChar(s[i]))
  }

  predicate OccursAt(needle: string, hay: string, i: nat)
  {
    i + |needle| <= |hay| && hay[i..i + |needle|] == needle
  }

  predicate IsSubstring(needle: string, hay: string)
  {
    exists i: nat | i <= |hay| :: OccursAt(needle, hay, i)
  }

  /** The `{ contains: text, mode: 'insensitive' }` condition. The empty text
      is contained in every value, and a text longer than the value never is. */
  predicate ContainsInsensitive(hay: string, text: string): (b: bool)
    ensures |text| == 0 ==> b
    ensures b ==> |text| <= |hay|
  {
    assert |text| == 0 ==> OccursAt(Lower(text), Lower(hay), 0);
    IsSubstring(Lower(text), Lower(hay))
  }

  /** Case-insensitive containment holds whenever the text occurs verbatim. */
  lemma {:induction false} VerbatimOccurrenceMatches(hay: string, text: string, i: nat)
    requires OccursAt(text, hay, i)
    ensures ContainsInsensitive(hay, text)
  {
    var lh, lt := Lower(hay), Lower(text);
    assert lh[i..i + |lt|] == lt by {
      forall k | 0 <= k < |lt| ensures lh[i..i + |lt|][k] == lt[k] {
        assert hay[i..i + |text|][k] == text[k];
      }
    }
    assert OccursAt(lt, lh, i);
  }

  /** The length JavaScript reports for a string: UTF-16 code units, so a
      character outside the Basic Multilingual Plane counts twice. */
  function Utf16Length(s: string): (n: nat)
    ensures |s| <= n <= 2 * |s|
    ensures (forall i | 0 <= i < |s| :: s[i] as int <= 0xFFFF) ==> n == |s|
  {
    if |s| == 0 then 0
    else (if s[0] as int > 0xFFFF then 2 else 1) + Utf16Length(s[1..])
  }
}

/**
 * The founder's "add member" form: the two blank-field checks, the e-mail
 * pattern `^[^\s@]+@[^\s@]+\.[^\s@]+$` (applied to the e-mail as typed), and
 * the record sent to user creation.
 */
module AddMember {
  import opened Wrappers
  import opened Text
  import opened Seqs
  import opened Domain
  import Database

  /** A character the pattern's class `[^\s@]` accepts. */
  predicate EmailChar(c: char) {
    !IsSpace(c) && c != '@'
  }

  /** A non-empty run of `[^\s@]` characters. */
  predicate Segment(s: string) {
    |s| > 0 && forall k :: 0 <= k < |s| ==> EmailChar(s[k])
  }

  /** `e` splits as segment, '@' at `a`, segment, '.' at `b`, segment. */
  predicate SplitsAt(e: string, a: int, b: int) {
    0 <= a < b < |e| && e[a] == '@' && e[b] == '.'
    && Segment(e[..a]) && Segment(e[a + 1..b]) && Segment(e[b + 1..])
  }

  /** The language of the pattern: some split of `e` into its five parts exists. */
  ghost predicate MatchesPattern(e: string) {
    exists a, b :: SplitsAt(e, a, b)
  }

  /** After the '@': a segment, a '.', a segment. */
  predicate DomainPart(r: string) {
    (forall k :: 0 <= k < |r| ==> EmailChar(r[k])) && exists j | 1 <= j < |r| - 1 :: r[j] == '.'
  }

  /** The pattern's test, deciding at the first '@'. */
  function IsEmail(e: string): bool
  {
    match FindIndex(e, (c: char) => c == '@')
    case None => false
    case Some(a) => Segment(e[..a]) && DomainPart(e[a + 1..])
  }

  /** The test accepts exactly the strings of the pattern's language. */
  lemma IsEmailMatchesPattern(e: string)
    ensures IsEmail(e) <==> MatchesPattern(e)
  {
    if IsEmail(e) {
      var a := FindIndex(e, (c: char) => c == '@').value;
      var r := e[a + 1..];
      var j :| 1 <= j < |r| - 1 && r[j] == '.';
      var b := a + 1 + j;
      assert e[a + 1..b] == r[..j];
      assert e[b + 1..] == r[j + 1..];
      assert SplitsAt(e, a, b);
    }
    if MatchesPattern(e) {
      var a, b :| SplitsAt(e, a, b);
      var i := FindIndex(e, (c: char) => c == '@');
      assert forall j :: 0 <= j < a ==> e[..a][j] == e[j];
      assert i == Some(a);
      var r := e[a + 1..];
      assert r[..b - a - 1] == e[a + 1..b];
      assert r[b - a..] == e[b + 1..];
      assert r[b - a - 1] == '.';
      assert forall k :: 0 <= k < |r| ==> EmailChar(r[k]) by {
        forall k | 0 <= k < |r|
          ensures EmailChar(r[k])
        {
          if k < b - a - 1 {
            assert r[k] == e[a + 1..b][k];
          } else if k > b - a - 1 {
            assert r[k] == e[b + 1..][k - (b - a)];
          }
        }
      }
    }
  }

  /** A matching address holds exactly one '@' and no white space at all. */
  lemma MatchedShape(e: string)
    requires MatchesPattern(e)
    ensures exists a :: 0 <= a < |e| && e[a] == '@' && forall k :: 0 <= k < |e| && e[k] == '@' ==> k == a
    ensures NoSpace(e)
  {
    var a, b :| SplitsAt(e, a, b);
    forall k | 0 <= k < |e|
      ensures !IsSpace(e[k]) && (e[k] == '@' ==> k == a)
    {
      if k < a {
        assert e[k] == e[..a][k];
      } else if a < k < b {
        assert e[k] == e[a + 1..b][k - a - 1];
      } else if b < k {
        assert e[k] == e[b + 1..][k - b - 1];
      }
    }
  }

  /** An address typed with white space around it is refused, though it is not blank. */
  lemma SurroundingSpaceRejected(e: string)
    requires |e| > 0 && (IsSpace(e[0]) || IsSpace(e[|e| - 1]))
    ensures !IsEmail(e)
  {
    IsEmailMatchesPattern(e);
    if MatchesPattern(e) {
      MatchedShape(e);
    }
  }

  /** `Date.now()` in decimal, as it appears in the generated id. */
  function Decimal(n: nat): string {
    var d := ['0' + (n % 10) as char];
    if n < 10 then d else Decimal(n / 10) + d
  }

  /** The number a string of decimal digits denotes, most significant first. */
  function DigitsValue(s: string): int {
    if s == [] then 0 else 10 * DigitsValue(s[..|s| - 1]) + (s[|s| - 1] as int - '0' as int)
  }

  /** The decimal form is a non-empty string of digits that denotes `n`. */
  lemma {:induction false} DecimalDigits(n: nat)
    ensures |Decimal(n)| > 0 && forall k :: 0 <= k < |Decimal(n)| ==> '0' <= Decimal(n)[k] <= '9'
    ensures DigitsValue(Decimal(n)) == n
  {
    var d := ['0' + (n % 10) as char];
    if n < 10 {
      assert DigitsValue(d) == 10 * DigitsValue([]) + n % 10;
    } else {
      DecimalDigits(n / 10);
      var s := Decimal(n / 10) + d;
      assert s[..|s| - 1] == Decimal(n / 10);
      assert DigitsValue(s) == 10 * (n / 10) + n % 10;
    }
  }

  datatype FormError = MissingField | InvalidEmail

  /**
   * The checks and the record of `handleSubmit`: a name or e-mail that is
   * blank after trimming is a missing field; an e-mail (as typed) outside the
   * pattern is invalid; otherwise the new member gets a generated id, the
   * trimmed name, the trimmed lower-cased e-mail, role member, status
   * active, joined now, and both counters at 0.
   */
  function ValidateMember(name: string, email: string, nowMs: nat): (r: Result<UserFields, FormError>)
    ensures r.Ok? <==> Trim(name) != "" && Trim(email) != "" && IsEmail(email)
    ensures r.Ok? ==> r.value.role == Some(Member) && r.value.status == Some(Active)
  {
    if Trim(name) == "" || Trim(email) == "" then Err(MissingField)
    else if !IsEmail(email) then Err(InvalidEmail)
    else Ok(UserFields(Some("member_" + Decimal(nowMs)), Some(ToLower(Trim(email))), Some(Trim(name)),
                       Some(Member), Some(Active), Some(nowMs), Some(0), Some(0)))
  }

  /**
   * What the form accepts and what it sends: the error cases in the order
   * the form checks them, and for an accepted form a record whose e-mail is
   * the typed address lower-cased (trimming changes nothing once the pattern
   * matched) and whose name is trimmed and not blank.
   */
  lemma ValidateMemberSpec(name: string, email: string, nowMs: nat)
    ensures ValidateMember(name, email, nowMs) == Err(MissingField)
        <==> (forall k :: 0 <= k < |name| ==> IsSpace(name[k])) || (forall k :: 0 <= k < |email| ==> IsSpace(email[k]))
    ensures ValidateMember(name, email, nowMs) == Err(InvalidEmail)
        <==> Trim(name) != "" && Trim(email) != "" && !MatchesPattern(email)
    ensures ValidateMember(name, email, nowMs).Ok? ==>
      var f := ValidateMember(name, email, nowMs).value;
      && MatchesPattern(email)
      && f.email == Some(ToLower(email)) && f.name == Some(Trim(name)) && Trim(name) != ""
      && f.role == Some(Member) && f.status == Some(Active)
      && f.streak == Some(0) && f.missedWeeks == Some(0) && f.joinedAt == Some(nowMs)
  {
    TrimEmptyIffAllSpace(name);
    TrimEmptyIffAllSpace(email);
    IsEmailMatchesPattern(email);
    if ValidateMember(name, email, nowMs).Ok? {
      MatchedShape(email);
      TrimNoSpace(email);
    }
  }

  /**
   * The stored member that user creation makes from an accepted form is an
   * active member with clean counters, and the team listing shows it.
   */
  lemma AddedMemberListed(name: string, email: string, nowMs: nat, id: string, clock: Timestamp, users: seq<User>)
    requires ValidateMember(name, email, nowMs).Ok?
    ensures var u := Database.CreateUser(id, ValidateMember(name, email, nowMs).value, clock);
      && u.role == Member && u.status == Active && u.streak == 0 && u.missedWeeks == 0
      && u.name == Trim(name) && u.email == ToLower(email) && u.joinedAt == nowMs
      && u in Database.GetTeamMembers(users + [u])
  {
    ValidateMemberSpec(name, email, nowMs);
    var u := Database.CreateUser(id, ValidateMember(name, email, nowMs).value, clock);
    assert Trim(email) != "";
    assert |ToLower(email)| == |email| > 0;
    assert (users + [u])[|users|] == u;
  }

  /** The dialog's form state and the user-creation calls it has issued. */
  class Dialog {
    var name: string
    var email: string
    var open: bool
    var created: seq<UserFields>

    constructor ()
      ensures name == "" && email == "" && !open && created == []
    {
      name, email, open, created := "", "", false, [];
    }

    /** Opening the dialog and typing into the two fields. */
    method Fill(newName: string, newEmail: string)
      modifies this
      ensures name == newName && email == newEmail && open && created == old(created)
    {
      name, email, open := newName, newEmail, true;
    }

    /**
     * `handleSubmit`: a refused form changes nothing; an accepted one issues
     * the creation call, and only when that succeeds is the form cleared and
     * the dialog closed.
     */
    method Submit(nowMs: nat, createOk: bool) returns (r: Result<bool, FormError>)
      modifies this
      ensures match ValidateMember(old(name), old(email), nowMs)
        case Err(e) =>
          && r == Err(e)
          && name == old(name) && email == old(email) && open == old(open) && created == old(created)
        case Ok(f) =>
          && r == Ok(createOk)
          && created == old(created) + [f]
          && (createOk ==> name == "" && email == "" && !open)
          && (!createOk ==> name == old(name) && email == old(email) && open == old(open))
    {
      var checked := ValidateMember(name, email, nowMs);
      match checked {
        case Err(e) =>
          r := Err(e);
        case Ok(f) =>
          created := created + [f];
          if createOk {
            name, email, open := "", "", false;
          }
          r := Ok(createOk);
      }
    }
  }
}

/**
 * Looking up users by the identifiers a public request carries: the
 * `SELECT user_id FROM users WHERE … LIMIT 1` queries the Node controllers
 * chain one after another, and the order of those chains.
 */
module Identity {
  import opened Wrappers
  import opened Text

  /** Primary keys come from AUTO_INCREMENT, which starts at 1. */
  type UserId = n: nat | n >= 1 witness 1

  /** A row of `users`; a column the table lacks, or a NULL, is None. */
  datatype User = User(user_id: UserId, email: Option<string>, badge_number: Option<string>,
                       name: Option<string>, first_name: Option<string>, last_name: Option<string>,
                       role: Option<string>)

  /** Which of the optional columns the `users` table has. */
  datatype UsersSchema = UsersSchema(hasName: bool, hasFirstLast: bool, hasRole: bool)

  /** JavaScript truthiness of a string field of a request body. */
  predicate Given(s: Option<string>) {
    s.Some? && s.value != ""
  }

  /** One `WHERE` clause of a lookup. */
  datatype Criterion =
    | ByEmail(email: string)
    | ByBadge(badge: string)
    | ByName(name: string)
    | ByFullName(first: string, last: string)
    | ByFirstOrLast(text: string)
    | ByRole(role: string)

  predicate Matches(u: User, c: Criterion) {
    match c
    case ByEmail(x) => u.email == Some(x)
    case ByBadge(x) => u.badge_number == Some(x)
    case ByName(x) => u.name == Some(x)
    case ByFullName(f, l) => u.first_name == Some(f) && u.last_name == Some(l)
    case ByFirstOrLast(x) => u.first_name == Some(x) || u.last_name == Some(x)
    case ByRole(x) => u.role == Some(x)
  }

  /** `… WHERE c LIMIT 1`: the first matching row in table order. */
  function FirstWhere(users: seq<User>, c: Criterion): Option<UserId> {
    if users == [] then None
    else if Matches(users[0], c) then Some(users[0].user_id)
    else FirstWhere(users[1..], c)
  }

  /** The lookup answers nothing only when no row matches, and otherwise the first row that does. */
  lemma {:induction false} FirstWhereSpec(users: seq<User>, c: Criterion)
    ensures FirstWhere(users, c).None? <==> forall i :: 0 <= i < |users| ==> !Matches(users[i], c)
    ensures FirstWhere(users, c).Some? ==>
              exists i :: 0 <= i < |users| && Matches(users[i], c) && users[i].user_id == FirstWhere(users, c).value
                          && forall j :: 0 <= j < i ==> !Matches(users[j], c)
  {
    if users != [] && !Matches(users[0], c) {
      FirstWhereSpec(users[1..], c);
      assert forall i :: 1 <= i < |users| ==> users[i] == users[1..][i - 1];
      if FirstWhere(users, c).Some? {
        var i :| 0 <= i < |users[1..]| && Matches(users[1..][i], c) && users[1..][i].user_id == FirstWhere(users, c).value
                 && forall j :: 0 <= j < i ==> !Matches(users[1..][j], c);
        assert Matches(users[i + 1], c);
      }
    }
  }

  /** The first matching row is the one the lookup answers. */
  lemma {:induction false} FirstWhereAt(users: seq<User>, c: Criterion, i: nat)
    requires i < |users| && Matches(users[i], c)
    requires forall j :: 0 <= j < i ==> !Matches(users[j], c)
    ensures FirstWhere(users, c) == Some(users[i].user_id)
  {
    if i > 0 {
      assert users[1..][i - 1] == users[i];
      FirstWhereAt(users[1..], c, i - 1);
    }
  }

  /**
   * A chain of lookups: the answer of the first criterion that matches any
   * user.  This is the reference every resolution chain is held to.
   */
  function FirstMatch(users: seq<User>, cs: seq<Criterion>): Option<UserId> {
    if cs == [] then None
    else if FirstWhere(users, cs[0]).Some? then FirstWhere(users, cs[0])
    else FirstMatch(users, cs[1..])
  }

  /**
   * A chain answers nothing only when no criterion matches any user, and
   * otherwise what the earliest criterion with a match finds first.
   */
  lemma {:induction false} FirstMatchSpec(users: seq<User>, cs: seq<Criterion>)
    ensures FirstMatch(users, cs).None? <==>
              forall k, i :: 0 <= k < |cs| && 0 <= i < |users| ==> !Matches(users[i], cs[k])
    ensures FirstMatch(users, cs).Some? ==>
              exists k :: 0 <= k < |cs| && FirstWhere(users, cs[k]) == FirstMatch(users, cs)
                          && forall k' :: 0 <= k' < k ==> FirstWhere(users, cs[k']).None?
  {
    if cs != [] {
      FirstWhereSpec(users, cs[0]);
    }
    if cs != [] && FirstWhere(users, cs[0]).None? {
      FirstMatchSpec(users, cs[1..]);
      assert forall k :: 1 <= k < |cs| ==> cs[k] == cs[1..][k - 1];
      if FirstMatch(users, cs).Some? {
        var k :| 0 <= k < |cs[1..]| && FirstWhere(users, cs[1..][k]) == FirstMatch(users, cs)
                 && forall k' :: 0 <= k' < k ==> FirstWhere(users, cs[1..][k']).None?;
        assert FirstWhere(users, cs[k + 1]) == FirstMatch(users, cs);
      }
    }
  }

  /** Whatever a chain answers is the id of a user matching one of its criteria. */
  lemma {:induction false} FirstMatchSound(users: seq<User>, cs: seq<Criterion>)
    requires FirstMatch(users, cs).Some?
    ensures exists i, k :: 0 <= i < |users| && 0 <= k < |cs| && users[i].user_id == FirstMatch(users, cs).value
                           && Matches(users[i], cs[k])
  {
    FirstWhereSpec(users, cs[0]);
    if FirstWhere(users, cs[0]).None? {
      FirstMatchSound(users, cs[1..]);
      var i, k :| 0 <= i < |users| && 0 <= k < |cs[1..]| && users[i].user_id == FirstMatch(users, cs).value
                  && Matches(users[i], cs[1..][k]);
      assert cs[1..][k] == cs[k + 1];
    }
  }

  lemma {:induction false} FirstMatchAppend(users: seq<User>, a: seq<Criterion>, b: seq<Criterion>)
    ensures FirstMatch(users, a + b) == if FirstMatch(users, a).Some? then FirstMatch(users, a) else FirstMatch(users, b)
  {
    if a != [] {
      assert (a + b)[0] == a[0];
      assert (a + b)[1..] == a[1..] + b;
      FirstMatchAppend(users, a[1..], b);
    } else {
      assert a + b == b;
    }
  }

  /**
   * `name.trim().split(/\s+/)` with two or more parts: the first word, and
   * the remaining words joined by single spaces.
   */
  function NameSplit(name: string): (r: Option<(string, string)>)
    ensures r.Some? ==> r.value.0 != [] && NoSpace(r.value.0)
  {
    WordsShape(Trim(name));
    var parts := SplitWhitespace(Trim(name));
    if |parts| >= 2 then Some((parts[0], Join(parts[1..], " "))) else None
  }

  lemma {:induction false} JoinEnds(ws: seq<string>)
    requires |ws| >= 1 && forall k :: 0 <= k < |ws| ==> ws[k] != [] && NoSpace(ws[k])
    ensures var s := Join(ws, " "); s != [] && s[0] == ws[0][0] && s[|s| - 1] == ws[|ws| - 1][|ws[|ws| - 1]| - 1]
  {
    if |ws| >= 2 {
      JoinEnds(ws[1..]);
      assert ws[1..][|ws[1..]| - 1] == ws[|ws| - 1];
    }
  }

  /**
   * A full name typed as words separated by single spaces is split into
   * its first word and the rest of it.
   */
  lemma {:induction false} NameSplitOfJoined(ws: seq<string>)
    requires |ws| >= 2 && forall k :: 0 <= k < |ws| ==> ws[k] != [] && NoSpace(ws[k])
    ensures NameSplit(Join(ws, " ")) == Some((ws[0], Join(ws[1..], " ")))
  {
    var s := Join(ws, " ");
    JoinEnds(ws);
    assert ws[0][0] == s[0] && !IsSpace(s[0]);
    assert TrimStart(s) == s;
    assert TrimEnd(s) == s;
    assert Trim(s) == s;
    WordsOfJoin(ws);
    assert SplitWhitespace(s) == ws;
  }

  /**
   * `name.split(' ')` followed by `parts[0]` and `parts.slice(1).join(' ')`:
   * the text before the first space and the text after it.
   */
  function SpaceSplit(name: string): (r: (string, string))
    ensures match Cut(name, ' ')
            case None => r == (name, "")
            case Some((a, b)) => r == (a, b)
  {
    var parts := Split(name, ' ');
    SplitHeadAndRest(name, ' ');
    (parts[0], Join(parts[1..], " "))
  }

  /** `ORDER BY user_id ASC LIMIT 1`. */
  function LowestId(users: seq<User>): (r: Option<UserId>)
    ensures r.None? <==> users == []
    ensures r.Some? ==> (exists i :: 0 <= i < |users| && users[i].user_id == r.value)
                        && forall i :: 0 <= i < |users| ==> r.value <= users[i].user_id
  {
    if users == [] then None
    else
      var rest := LowestId(users[1..]);
      if rest.Some? && rest.value < users[0].user_id then
        assert forall i :: 1 <= i < |users| ==> users[i] == users[1..][i - 1];
        rest
      else
        assert forall i :: 1 <= i < |users| ==> users[i] == users[1..][i - 1];
        Some(users[0].user_id)
  }

  // ---------------------------------------------------------------------------
  // The lookups each chain tries, in its order.
  // ---------------------------------------------------------------------------

  function When(b: bool, cs: seq<Criterion>): seq<Criterion> {
    if b then cs else []
  }

  /** The first/last lookup of a name of two or more words, when it has them. */
  function FullNameCriteria(n: string): seq<Criterion> {
    match NameSplit(n)
    case Some((f, l)) => [ByFullName(f, l)]
    case None => []
  }

  /** The name lookups of `resolveUser`: name column, first/last split, then first or last. */
  function PartyNameCriteria(schema: UsersSchema, n: string): seq<Criterion> {
    When(schema.hasName, [ByName(n)]) + When(schema.hasFirstLast, FullNameCriteria(n) + [ByFirstOrLast(n)])
  }

  /** `resolveUser` of the public transfer path: email, badge, then the name lookups. */
  function TransferPartyCriteria(schema: UsersSchema, email: Option<string>, badge: Option<string>,
                                 name: Option<string>): seq<Criterion>
  {
    When(Given(email), [ByEmail(email.GetOr(""))])
    + (When(Given(badge), [ByBadge(badge.GetOr(""))])
       + When(Given(name), PartyNameCriteria(schema, name.GetOr(""))))
  }

  /** The collector of public evidence intake and the assignee of a public case: email, name, first/last split. */
  function PersonCriteria(schema: UsersSchema, email: Option<string>, name: Option<string>): seq<Criterion> {
    When(Given(email), [ByEmail(email.GetOr(""))])
    + When(Given(name),
           When(schema.hasName, [ByName(name.GetOr(""))])
           + When(schema.hasFirstLast, FullNameCriteria(name.GetOr(""))))
  }

  /**
   * The analyst of a public report, by the request's fields: email, then
   * either the name column or, without one, the split on the first space.
   */
  function AnalystCriteria(schema: UsersSchema, email: Option<string>, name: Option<string>): seq<Criterion> {
    When(Given(email), [ByEmail(email.GetOr(""))])
    + When(Given(name),
           if schema.hasName then [ByName(name.GetOr(""))]
           else When(schema.hasFirstLast, [ByFullName(SpaceSplit(name.GetOr("")).0, SpaceSplit(name.GetOr("")).1)]))
  }

  /** `WHERE role IN (…) ORDER BY FIELD(role, 'Lab Staff', 'Admin', 'Investigator') LIMIT 1`. */
  const RolePreference: seq<Criterion> := [ByRole("Lab Staff"), ByRole("Admin"), ByRole("Investigator")]

  /** The name part of `resolveUser`, as its early returns run. */
  function ResolveByName(users: seq<User>, schema: UsersSchema, n: string): Option<UserId> {
    var byName := if schema.hasName then FirstWhere(users, ByName(n)) else None;
    if byName.Some? then byName
    else if !schema.hasFirstLast then None
    else
      var byFull := match NameSplit(n)
                    case Some((f, l)) => FirstWhere(users, ByFullName(f, l))
                    case None => None;
      if byFull.Some? then byFull else FirstWhere(users, ByFirstOrLast(n))
  }

  /**
   * `resolveUser({ email, badge, name })` of the public transfer path, as
   * its early returns run.
   */
  function ResolveUser(users: seq<User>, schema: UsersSchema, email: Option<string>, badge: Option<string>,
                       name: Option<string>): (r: Option<UserId>)
    ensures r.Some? ==> Given(email) || Given(badge) || Given(name)
  {
    var byEmail := if Given(email) then FirstWhere(users, ByEmail(email.value)) else None;
    var byBadge := if Given(badge) then FirstWhere(users, ByBadge(badge.value)) else None;
    if byEmail.Some? then byEmail
    else if byBadge.Some? then byBadge
    else if !Given(name) then None
    else ResolveByName(users, schema, name.value)
  }

  lemma FirstMatchOne(users: seq<User>, c: Criterion)
    ensures FirstMatch(users, [c]) == FirstWhere(users, c)
  {
    assert [c][1..] == [];
  }

  lemma FirstMatchWhen(users: seq<User>, b: bool, c: Criterion)
    ensures FirstMatch(users, When(b, [c])) == if b then FirstWhere(users, c) else None
  {
    if b {
      FirstMatchOne(users, c);
    }
  }

  lemma {:induction false} ResolveByNameIsFirstMatch(users: seq<User>, schema: UsersSchema, n: string)
    ensures ResolveByName(users, schema, n) == FirstMatch(users, PartyNameCriteria(schema, n))
  {
    var full := FullNameCriteria(n);
    FirstMatchAppend(users, When(schema.hasName, [ByName(n)]), When(schema.hasFirstLast, full + [ByFirstOrLast(n)]));
    FirstMatchWhen(users, schema.hasName, ByName(n));
    FirstMatchAppend(users, full, [ByFirstOrLast(n)]);
    FirstMatchOne(users, ByFirstOrLast(n));
    match NameSplit(n)
    case Some((f, l)) => FirstMatchOne(users, ByFullName(f, l));
    case None =>
  }

  lemma {:induction false} FirstMatchThree(users: seq<User>, a: seq<Criterion>, b: seq<Criterion>, c: seq<Criterion>)
    ensures FirstMatch(users, a + (b + c))
            == if FirstMatch(users, a).Some? then FirstMatch(users, a)
               else if FirstMatch(users, b).Some? then FirstMatch(users, b)
               else FirstMatch(users, c)
  {
    FirstMatchAppend(users, a, b + c);
    FirstMatchAppend(users, b, c);
  }

  lemma {:induction false} ResolveUserStages(users: seq<User>, schema: UsersSchema, email: Option<string>,
                                             badge: Option<string>, name: Option<string>)
    ensures var byEmail := FirstMatch(users, When(Given(email), [ByEmail(email.GetOr(""))]));
            var byBadge := FirstMatch(users, When(Given(badge), [ByBadge(badge.GetOr(""))]));
            var byName := FirstMatch(users, When(Given(name), PartyNameCriteria(schema, name.GetOr(""))));
            ResolveUser(users, schema, email, badge, name)
            == if byEmail.Some? then byEmail else if byBadge.Some? then byBadge else byName
  {
    FirstMatchWhen(users, Given(email), ByEmail(email.GetOr("")));
    FirstMatchWhen(users, Given(badge), ByBadge(badge.GetOr("")));
    ResolveByNameIsFirstMatch(users, schema, name.GetOr(""));
  }

  lemma TransferPartyCriteriaParts(schema: UsersSchema, email: Option<string>, badge: Option<string>, name: Option<string>)
    ensures TransferPartyCriteria(schema, email, badge, name)
            == When(Given(email), [ByEmail(email.GetOr(""))])
               + (When(Given(badge), [ByBadge(badge.GetOr(""))]) + When(Given(name), PartyNameCriteria(schema, name.GetOr(""))))
  {
  }

  lemma {:induction false} ResolveUserIsFirstMatch(users: seq<User>, schema: UsersSchema, email: Option<string>,
                                                   badge: Option<string>, name: Option<string>)
    ensures ResolveUser(users, schema, email, badge, name) == FirstMatch(users, TransferPartyCriteria(schema, email, badge, name))
  {
    var a := When(Given(email), [ByEmail(email.GetOr(""))]);
    var b := When(Given(badge), [ByBadge(badge.GetOr(""))]);
    var c := When(Given(name), PartyNameCriteria(schema, name.GetOr("")));
    TransferPartyCriteriaParts(schema, email, badge, name);
    FirstMatchThree(users, a, b, c);
    ResolveUserStages(users, schema, email, badge, name);
  }

  /** A user found by email wins over every other identifier. */
  lemma EmailWins(users: seq<User>, schema: UsersSchema, email: string, badge: Option<string>, name: Option<string>,
                  i: nat)
    requires email != [] && i < |users| && users[i].email == Some(email)
    requires forall j :: 0 <= j < i ==> users[j].email != Some(email)
    ensures ResolveUser(users, schema, Some(email), badge, name) == Some(users[i].user_id)
  {
    FirstWhereAt(users, ByEmail(email), i);
  }

  /** The person a public intake names, as the lookups of `PersonCriteria` find them. */
  function Person(users: seq<User>, schema: UsersSchema, email: Option<string>, name: Option<string>): Option<UserId> {
    FirstMatch(users, PersonCriteria(schema, email, name))
  }

  /** The same person as a column value. */
  function PersonColumn(users: seq<User>, schema: UsersSchema, email: Option<string>, name: Option<string>)
    : Option<nat>
  {
    var found := Person(users, schema, email, name);
    if found.Some? then Some(found.value as nat) else None
  }

  /**
   * The collector of public evidence intake and the assignee of a public
   * case, as the handlers reassign the variable: email, then the name
   * column, then the first/last split of the name.
   */
  method ResolvePerson(users: seq<User>, schema: UsersSchema, email: Option<string>, name: Option<string>)
    returns (who: Option<nat>)
    ensures who == PersonColumn(users, schema, email, name)
  {
    var found: Option<UserId> := None;
    if Given(email) {
      found := FirstWhere(users, ByEmail(email.value));
    }
    if found.None? && Given(name) {
      if schema.hasName {
        found := FirstWhere(users, ByName(name.value));
      }
      if found.None? && schema.hasFirstLast {
        match NameSplit(name.value)
        case Some((first, last)) =>
          found := FirstWhere(users, ByFullName(first, last));
        case None =>
      }
    }
    PersonCriteriaStages(users, schema, email, name);
    who := if found.Some? then Some(found.value as nat) else None;
  }

  lemma {:induction false} PersonCriteriaStages(users: seq<User>, schema: UsersSchema, email: Option<string>,
                                                name: Option<string>)
    ensures var byEmail := if Given(email) then FirstWhere(users, ByEmail(email.value)) else None;
            var byName := if Given(name) && schema.hasName then FirstWhere(users, ByName(name.value)) else None;
            var byFull := if Given(name) && schema.hasFirstLast then
                            match NameSplit(name.value)
                            case Some((f, l)) => FirstWhere(users, ByFullName(f, l))
                            case None => None
                          else None;
            FirstMatch(users, PersonCriteria(schema, email, name))
            == if byEmail.Some? then byEmail else if byName.Some? then byName else byFull
  {
    var n := name.GetOr("");
    var a := When(Given(email), [ByEmail(email.GetOr(""))]);
    var b := When(schema.hasName, [ByName(n)]);
    var c := When(schema.hasFirstLast, FullNameCriteria(n));
    FirstMatchAppend(users, a, When(Given(name), b + c));
    FirstMatchWhen(users, Given(email), ByEmail(email.GetOr("")));
    if Given(name) {
      FirstMatchAppend(users, b, c);
      FirstMatchWhen(users, schema.hasName, ByName(n));
      match NameSplit(n)
      case Some((f, l)) => FirstMatchOne(users, ByFullName(f, l));
      case None =>
    }
  }
}

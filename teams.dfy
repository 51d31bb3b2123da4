/**
 * The team account rules of the server's TeamService: deriving a team's URI from its name,
 * looking teams up, creating a team with its default columns, and counting failed logins.
 * The team and column-title repositories are in-memory stores; the password encoder is a
 * pair of functions supplied from outside; "today" is a parameter.
 */
module Teams {
  import opened Results
  import opened JavaStrings

  /** A calendar day (`LocalDate`), kept abstract. */
  type Date = int

  /** A team account as the team repository stores it. */
  datatype Team = Team(
    uri: string,
    name: string,
    password: string,
    dateCreated: Date,
    lastLoginDate: Option<Date>,
    failedAttempts: Option<Int32>)

  /** The title of one column of a team's board. */
  datatype ColumnTitle = ColumnTitle(teamId: string, topic: string, title: string)

  /** What a request to create a team carries. */
  datatype CreateTeamRequest = CreateTeamRequest(name: string, password: string)

  /** What a login request carries; the password may be null. */
  datatype LoginRequest = LoginRequest(name: string, password: Option<string>)

  /** The exceptions the service throws. */
  datatype TeamError =
    | BoardDoesNotExist
    | PasswordInvalid
    | DataIntegrityViolation(uri: string)

  /** The injected password encoder: `encode` hashes a raw password, `matches(raw, encoded)` checks one. */
  datatype PasswordEncoder = PasswordEncoder(encode: string -> string, matches: (string, string) -> bool)

  /** A team name becomes its URI by lower-casing it and turning every space into a dash. */
  function ConvertTeamNameToUri(teamName: string): (uri: string)
    ensures |uri| == |teamName|
    ensures forall i :: 0 <= i < |uri| ==> uri[i] != ' ' && !IsAsciiUpper(uri[i])
    ensures forall i :: 0 <= i < |uri| && teamName[i] == ' ' ==> uri[i] == '-'
    ensures forall i :: 0 <= i < |uri| && IsAsciiUpper(teamName[i]) ==> uri[i] as int == teamName[i] as int + 32
    ensures forall i :: 0 <= i < |uri| && teamName[i] != ' ' && !IsAsciiUpper(teamName[i]) ==> uri[i] == teamName[i]
  {
    Replace(ToLower(teamName), ' ', '-')
  }

  /** A URI is already in converted form: converting it again changes nothing. */
  lemma ConvertTeamNameToUriIdempotent(teamName: string)
    ensures ConvertTeamNameToUri(ConvertTeamNameToUri(teamName)) == ConvertTeamNameToUri(teamName)
  {
    var uri := ConvertTeamNameToUri(teamName);
    assert ToLower(uri) == uri;
    assert Replace(uri, ' ', '-') == uri;
  }

  /** A converted URI is its own lower-case form. */
  lemma UriIsLowerCase(teamName: string)
    ensures ToLower(ConvertTeamNameToUri(teamName)) == ConvertTeamNameToUri(teamName)
  {
    var uri := ConvertTeamNameToUri(teamName);
    assert forall i :: 0 <= i < |uri| ==> ToLower(uri)[i] == uri[i];
  }

  /** Names that are equal ignoring case are converted to the same URI. */
  lemma SameNameIgnoringCaseSameUri(a: string, b: string)
    requires EqualsIgnoreCase(a, b)
    ensures ConvertTeamNameToUri(a) == ConvertTeamNameToUri(b)
  {
  }

  /** A team as the store keeps it: its name is trimmed and its URI is derived from that name. */
  ghost predicate TeamWellFormed(t: Team) {
    Trim(t.name) == t.name && t.uri == ConvertTeamNameToUri(t.name)
  }

  /** Every stored team is well formed and kept under its own URI. */
  ghost predicate WellKeyed(teams: map<string, Team>) {
    forall u :: u in teams ==> teams[u].uri == u && TeamWellFormed(teams[u])
  }

  /** `findTeamByUri`: the team stored under exactly this URI. */
  function FindTeamByUri(teams: map<string, Team>, uri: string): (r: Option<Team>)
    ensures r.Some? <==> uri in teams
    ensures r.Some? ==> r.value in teams.Values
    ensures WellKeyed(teams) && r.Some? ==> r.value.uri == uri && TeamWellFormed(r.value)
  {
    if uri in teams then Some(teams[uri]) else None
  }

  /** In a well-keyed store, every team whose name matches `name` ignoring case sits at the URI derived from `name`. */
  lemma NameMatchesAreAtUri(teams: map<string, Team>, name: string)
    requires WellKeyed(teams)
    ensures forall u :: u in teams && EqualsIgnoreCase(teams[u].name, name) ==> u == ConvertTeamNameToUri(name)
  {
    forall u | u in teams && EqualsIgnoreCase(teams[u].name, name)
      ensures u == ConvertTeamNameToUri(name)
    {
      SameNameIgnoringCaseSameUri(teams[u].name, name);
    }
  }

  /**
   * `findTeamByNameIgnoreCase`: the team whose name equals `name` ignoring case. In a well-keyed
   * store there is at most one, and it is the one stored under the URI derived from `name`.
   */
  function FindTeamByNameIgnoreCase(teams: map<string, Team>, name: string): (r: Option<Team>)
    requires WellKeyed(teams)
    ensures r.Some? <==> exists u :: u in teams && EqualsIgnoreCase(teams[u].name, name)
    ensures r.Some? ==> EqualsIgnoreCase(r.value.name, name) && r.value.uri == ConvertTeamNameToUri(name)
    ensures r.Some? ==> r.value.uri in teams && teams[r.value.uri] == r.value
  {
    if exists u :: u in teams && EqualsIgnoreCase(teams[u].name, name) then
      NameMatchesAreAtUri(teams, name);
      var u :| u in teams && EqualsIgnoreCase(teams[u].name, name);
      Some(teams[u])
    else
      None
  }

  /** The three columns every new board starts with, in the order they are saved. */
  function DefaultColumns(teamUri: string): seq<ColumnTitle> {
    [ ColumnTitle(teamUri, "happy", "Happy"),
      ColumnTitle(teamUri, "confused", "Confused"),
      ColumnTitle(teamUri, "unhappy", "Sad") ]
  }

  /** Whether a login request's password is accepted for a stored team. */
  predicate PasswordAccepted(encoder: PasswordEncoder, password: Option<string>, t: Team) {
    password.Some? && encoder.matches(password.value, t.password)
  }

  /** The team after one more failed login: the counter goes up by one, a missing counter counting as 0. */
  function AfterFailedLogin(t: Team): (t': Team)
    ensures t'.uri == t.uri && t'.name == t.name && t'.password == t.password
    ensures t'.dateCreated == t.dateCreated && t'.lastLoginDate == t.lastLoginDate
    ensures t'.failedAttempts == Some(Increment(t.failedAttempts.GetOr(0)))
    ensures t.failedAttempts.GetOr(0) < IntMax ==> t'.failedAttempts.value == t.failedAttempts.GetOr(0) + 1
  {
    t.(failedAttempts := Some(Increment(t.failedAttempts.GetOr(0))))
  }

  /** The team after a successful login: logged in today, no failed attempts. */
  function AfterSuccessfulLogin(t: Team, today: Date): (t': Team)
    ensures t'.uri == t.uri && t'.name == t.name && t'.password == t.password
    ensures t'.dateCreated == t.dateCreated
    ensures t'.lastLoginDate == Some(today) && t'.failedAttempts == Some(0)
  {
    t.(lastLoginDate := Some(today)).(failedAttempts := Some(0))
  }

  /** The team after `n` failed logins in a row. */
  function AfterFailedLogins(t: Team, n: nat): Team {
    if n == 0 then t else AfterFailedLogin(AfterFailedLogins(t, n - 1))
  }

  /** Without overflow, `n` failed logins in a row add exactly `n` to the counter. */
  lemma {:induction false} FailedLoginsAccumulate(t: Team, n: nat)
    requires t.failedAttempts.GetOr(0) + n <= IntMax
    ensures n > 0 ==> AfterFailedLogins(t, n).failedAttempts == Some(t.failedAttempts.GetOr(0) + n)
    ensures AfterFailedLogins(t, n).lastLoginDate == t.lastLoginDate
  {
    if n > 0 {
      FailedLoginsAccumulate(t, n - 1);
    }
  }

  /** A successful login clears whatever failed logins came before it. */
  lemma {:induction false} SuccessAfterFailuresResets(t: Team, n: nat, today: Date)
    ensures AfterSuccessfulLogin(AfterFailedLogins(t, n), today) == AfterSuccessfulLogin(t, today)
  {
    if n > 0 {
      SuccessAfterFailuresResets(t, n - 1, today);
    }
  }

  /** Storing a well-formed team under its own URI keeps the store well keyed. */
  lemma StoreKeepsWellKeyed(teams: map<string, Team>, t: Team)
    requires WellKeyed(teams) && TeamWellFormed(t)
    ensures WellKeyed(teams[t.uri := t])
  {
    var teams' := teams[t.uri := t];
    forall u | u in teams'
      ensures teams'[u].uri == u && TeamWellFormed(teams'[u])
    {
      if u != t.uri {
        assert teams'[u] == teams[u];
      }
    }
  }

  /** Saving under the same key twice leaves only the second value. */
  lemma SaveTwiceKeepsLast(teams: map<string, Team>, uri: string, first: Team, second: Team)
    ensures teams[uri := first][uri := second] == teams[uri := second]
  {
    var left, right := teams[uri := first][uri := second], teams[uri := second];
    assert left.Keys == right.Keys;
    assert forall u :: u in left ==> left[u] == right[u];
  }

  /** A team created in a store without its URI is found afterwards both by its name and by its URI. */
  lemma CreatedTeamIsFound(teams: map<string, Team>, name: string, password: string, today: Date)
    requires WellKeyed(teams)
    requires ConvertTeamNameToUri(Trim(name)) !in teams
    ensures var uri := ConvertTeamNameToUri(Trim(name));
            var t := Team(uri, Trim(name), password, today, None, None);
            && WellKeyed(teams[uri := t])
            && FindTeamByNameIgnoreCase(teams[uri := t], Trim(name)) == Some(t)
            && FindTeamByUri(teams[uri := t], ToLower(uri)) == Some(t)
  {
    var uri := ConvertTeamNameToUri(Trim(name));
    var t := Team(uri, Trim(name), password, today, None, None);
    var teams' := teams[uri := t];
    assert TeamWellFormed(t) by {
      TrimIdempotent(name);
    }
    StoreKeepsWellKeyed(teams, t);
    StoredTeamFoundByOwnName(teams', t);
    UriIsLowerCase(Trim(name));
  }

  /** In a well-keyed store, a stored team is what a lookup by its own name finds. */
  lemma StoredTeamFoundByOwnName(teams: map<string, Team>, t: Team)
    requires WellKeyed(teams)
    requires t.uri in teams && teams[t.uri] == t
    ensures FindTeamByNameIgnoreCase(teams, t.name) == Some(t)
  {
    assert t.uri == ConvertTeamNameToUri(t.name);
    assert EqualsIgnoreCase(teams[t.uri].name, t.name);
    var found := FindTeamByNameIgnoreCase(teams, t.name);
    assert found.value.uri == t.uri;
  }

  /**
   * The team service. `teams` is the team repository (URI to team) and `columnTitles` the
   * column-title repository, in the order titles were saved.
   */
  class TeamService {
    var teams: map<string, Team>
    var columnTitles: seq<ColumnTitle>
    const passwordEncoder: PasswordEncoder

    ghost predicate Valid()
      reads this
    {
      WellKeyed(teams)
    }

    constructor (passwordEncoder: PasswordEncoder, teams: map<string, Team>, columnTitles: seq<ColumnTitle>)
      requires WellKeyed(teams)
      ensures Valid()
      ensures this.passwordEncoder == passwordEncoder
      ensures this.teams == teams && this.columnTitles == columnTitles
    {
      this.passwordEncoder := passwordEncoder;
      this.teams := teams;
      this.columnTitles := columnTitles;
    }

    /** Looks a team up by its name, trimmed and compared ignoring case. */
    function GetTeamByName(teamName: string): (r: Result<Team, TeamError>)
      reads this
      requires Valid()
      ensures r.Success? <==> exists u :: u in teams && EqualsIgnoreCase(teams[u].name, Trim(teamName))
      ensures r.Success? ==> r.value.uri in teams && teams[r.value.uri] == r.value
      ensures r.Success? ==> r.value.uri == ConvertTeamNameToUri(Trim(teamName))
      ensures r.Failure? ==> r.error == BoardDoesNotExist
    {
      OrElseThrow(FindTeamByNameIgnoreCase(teams, Trim(teamName)), BoardDoesNotExist)
    }

    /** Looks a team up by its URI, lower-cased; since stored URIs are lower case, the match ignores case. */
    function GetTeamByUri(teamUri: string): (r: Result<Team, TeamError>)
      reads this
      requires Valid()
      ensures r.Success? <==> exists u :: u in teams && EqualsIgnoreCase(u, teamUri)
      ensures r.Success? ==> r.value.uri in teams && teams[r.value.uri] == r.value
      ensures r.Success? ==> EqualsIgnoreCase(r.value.uri, teamUri)
      ensures r.Failure? ==> r.error == BoardDoesNotExist
    {
      UrisMatchIgnoringCase(teamUri);
      OrElseThrow(FindTeamByUri(teams, ToLower(teamUri)), BoardDoesNotExist)
    }

    /** A stored URI equals a lower-cased URI exactly when the two are equal ignoring case. */
    lemma UrisMatchIgnoringCase(teamUri: string)
      requires Valid()
      ensures forall u :: u in teams ==> (u == ToLower(teamUri) <==> EqualsIgnoreCase(u, teamUri))
    {
      forall u | u in teams
        ensures u == ToLower(teamUri) <==> EqualsIgnoreCase(u, teamUri)
      {
        UriIsLowerCase(teams[u].name);
      }
    }

    /** The repository's `save`: stores the team under its URI, replacing any earlier version. */
    method Save(team: Team)
      requires Valid() && TeamWellFormed(team)
      modifies this
      ensures Valid()
      ensures teams == old(teams)[team.uri := team]
      ensures columnTitles == old(columnTitles)
    {
      teams := teams[team.uri := team];
    }

    /** Creates a team from a request; the password is stored encoded. */
    method CreateNewTeam(request: CreateTeamRequest, today: Date) returns (r: Result<Team, TeamError>)
      requires Valid()
      modifies this
      ensures Valid()
      ensures var uri := ConvertTeamNameToUri(Trim(request.name));
        if uri in old(teams) then
          && r == Failure(DataIntegrityViolation(uri))
          && teams == old(teams) && columnTitles == old(columnTitles)
        else
          && r == Success(Team(uri, Trim(request.name), passwordEncoder.encode(request.password), today, None, None))
          && teams == old(teams)[uri := r.value]
          && columnTitles == old(columnTitles) + DefaultColumns(uri)
    {
      var encryptedPassword := passwordEncoder.encode(request.password);
      r := CreateTeamEntity(request.name, encryptedPassword, today);
    }

    /**
     * Creates a team under the trimmed name, refusing a URI that is already taken; on success
     * the team and its three default columns are saved.
     */
    method CreateTeamEntity(name: string, password: string, today: Date) returns (r: Result<Team, TeamError>)
      requires Valid()
      modifies this
      ensures Valid()
      ensures var uri := ConvertTeamNameToUri(Trim(name));
        if uri in old(teams) then
          && r == Failure(DataIntegrityViolation(uri))
          && teams == old(teams) && columnTitles == old(columnTitles)
        else
          && r == Success(Team(uri, Trim(name), password, today, None, None))
          && teams == old(teams)[uri := r.value]
          && columnTitles == old(columnTitles) + DefaultColumns(uri)
    {
      var trimmedName := Trim(name);
      var uri := ConvertTeamNameToUri(trimmedName);
      var existing := FindTeamByUri(teams, uri);
      if existing.Some? {
        return Failure(DataIntegrityViolation(existing.value.uri));
      }
      var teamEntity := Team(uri, trimmedName, password, today, None, None);
      TrimIdempotent(name);
      Save(teamEntity);
      GenerateColumns(teamEntity);
      r := Success(teamEntity);
    }

    /** Saves the happy, confused and unhappy columns for a new team, in that order. */
    method GenerateColumns(teamEntity: Team)
      modifies this
      ensures teams == old(teams)
      ensures columnTitles == old(columnTitles) + DefaultColumns(teamEntity.uri)
    {
      var happyColumnTitle := ColumnTitle(teamEntity.uri, "happy", "Happy");
      var confusedColumnTitle := ColumnTitle(teamEntity.uri, "confused", "Confused");
      var unhappyColumnTitle := ColumnTitle(teamEntity.uri, "unhappy", "Sad");
      columnTitles := columnTitles + [happyColumnTitle];
      columnTitles := columnTitles + [confusedColumnTitle];
      columnTitles := columnTitles + [unhappyColumnTitle];
    }

    /**
     * Logs a team in. An unknown team fails and changes nothing; a missing or wrong password
     * counts one more failed attempt and fails; a right password records today's login and
     * clears the failed attempts. Only the team logging in changes.
     */
    method Login(request: LoginRequest, today: Date) returns (r: Result<Team, TeamError>)
      requires Valid()
      modifies this
      ensures Valid()
      ensures columnTitles == old(columnTitles)
      ensures old(GetTeamByName(request.name)).Failure? ==>
        r == Failure(BoardDoesNotExist) && teams == old(teams)
      ensures old(GetTeamByName(request.name)).Success? ==>
        var saved := old(GetTeamByName(request.name)).value;
        if PasswordAccepted(passwordEncoder, request.password, saved) then
          && r == Success(AfterSuccessfulLogin(saved, today))
          && teams == old(teams)[saved.uri := r.value]
        else
          && r == Failure(PasswordInvalid)
          && teams == old(teams)[saved.uri := AfterFailedLogin(saved)]
    {
      var lookup := GetTeamByName(request.name);
      if lookup.Failure? {
        return Failure(lookup.error);
      }
      var savedTeam := lookup.value;
      if request.password.None? || !passwordEncoder.matches(request.password.value, savedTeam.password) {
        var failedAttempts := savedTeam.failedAttempts.GetOr(0);
        savedTeam := UpdateFailedAttempts(savedTeam, Increment(failedAttempts));
        return Failure(PasswordInvalid);
      }
      ghost var before := teams;
      ghost var found := savedTeam;
      savedTeam := savedTeam.(lastLoginDate := Some(today));
      Save(savedTeam);
      savedTeam := UpdateFailedAttempts(savedTeam, 0);
      assert savedTeam == AfterSuccessfulLogin(found, today);
      SaveTwiceKeepsLast(before, found.uri, found.(lastLoginDate := Some(today)), savedTeam);
      r := Success(savedTeam);
    }

    /** Sets a team's failed-attempt counter and saves the team. */
    method UpdateFailedAttempts(savedTeam: Team, failedAttempts: Int32) returns (updated: Team)
      requires Valid() && TeamWellFormed(savedTeam)
      modifies this
      ensures Valid()
      ensures updated == savedTeam.(failedAttempts := Some(failedAttempts))
      ensures teams == old(teams)[savedTeam.uri := updated]
      ensures columnTitles == old(columnTitles)
    {
      updated := savedTeam.(failedAttempts := Some(failedAttempts));
      Save(updated);
    }
  }
}

/**
 * The extension-repository list of the browse screen: a mutable list of `owner/name`
 * repository names kept unique ignoring case, persisted as a string set.
 */
module Repos {
  import opened Wrappers
  import opened Text

  const CREATE_REPO_ITEM := "create_repo"

  // ---------------------------------------------------------------------------
  // The name format `^[a-zA-Z0-9-_.]*?/[a-zA-Z0-9-_.]*?$`

  predicate IsRepoChar(c: char)
  {
    ('a' <= c <= 'z') || ('A' <= c <= 'Z') || ('0' <= c <= '9') || c == '-' || c == '_' || c == '.'
  }

  predicate AllRepoChars(s: string)
  {
    forall i :: 0 <= i < |s| ==> IsRepoChar(s[i])
  }

  /** The regex run as a two-state scanner; `seenSlash` is the state. */
  function MatchFrom(s: string, seenSlash: bool): bool
    decreases |s|
  {
    if |s| == 0 then seenSlash
    else if s[0] == '/' then !seenSlash && MatchFrom(s[1..], true)
    else IsRepoChar(s[0]) && MatchFrom(s[1..], seenSlash)
  }

  /** `name.matches(repoRegex)` */
  function MatchesRepoRegex(s: string): bool
  {
    MatchFrom(s, false)
  }

  /** `s` is `left/right` with both sides (possibly empty) of repository characters. */
  predicate SplitsAtSlash(s: string, k: int)
  {
    0 <= k < |s| && s[k] == '/' && AllRepoChars(s[..k]) && AllRepoChars(s[k + 1..])
  }

  lemma {:induction false} MatchFromSeen(s: string)
    ensures MatchFrom(s, true) <==> AllRepoChars(s)
    decreases |s|
  {
    if |s| > 0 {
      MatchFromSeen(s[1..]);
      assert s == [s[0]] + s[1..];
    }
  }

  /** A name is valid iff it is `left/right` with one `/` and both sides made of ASCII
    * letters, digits, `-`, `_` and `.`. */
  lemma {:induction false} RepoRegexIff(s: string)
    ensures MatchesRepoRegex(s) <==> exists k :: SplitsAtSlash(s, k)
    decreases |s|
  {
    if |s| > 0 {
      var t := s[1..];
      if s[0] == '/' {
        MatchFromSeen(t);
        if MatchesRepoRegex(s) {
          assert s[..0] == [] && s[1..] == t;
          assert SplitsAtSlash(s, 0);
        }
        if exists k :: SplitsAtSlash(s, k) {
          var k :| SplitsAtSlash(s, k);
          assert s[..k + 1][0] == '/';
          assert k == 0;
          assert s[k + 1..] == t;
        }
      } else {
        RepoRegexIff(t);
        if MatchesRepoRegex(s) {
          var k' :| SplitsAtSlash(t, k');
          assert s[..k' + 1] == [s[0]] + t[..k'];
          assert s[k' + 2..] == t[k' + 1..];
          assert SplitsAtSlash(s, k' + 1);
        }
        if exists k :: SplitsAtSlash(s, k) {
          var k :| SplitsAtSlash(s, k);
          assert k != 0;
          assert s[..k][0] == s[0];
          assert t[..k - 1] == s[..k][1..];
          assert t[k..] == s[k + 1..];
          assert SplitsAtSlash(t, k - 1);
        }
      }
    }
  }

  // ---------------------------------------------------------------------------
  // The list rules

  datatype RepoError = RepoExists | InvalidName

  /** `repoExists`: some stored repo equals `name` ignoring case. */
  predicate RepoExistsIn(repos: seq<string>, name: string)
  {
    exists i :: 0 <= i < |repos| && EqualsIgnoreCase(repos[i], name)
  }

  /** `isInvalidRepo`, returning the error the controller is told about; the duplicate
    * check comes first. */
  function CheckRepo(repos: seq<string>, name: string): (r: Option<RepoError>)
    ensures r == None <==> !RepoExistsIn(repos, name) && MatchesRepoRegex(name)
    ensures r == Some(InvalidName) ==> !RepoExistsIn(repos, name)
  {
    if RepoExistsIn(repos, name) then Some(RepoExists)
    else if !MatchesRepoRegex(name) then Some(InvalidName)
    else None
  }

  predicate UniqueIgnoreCase(repos: seq<string>)
  {
    forall i, j :: 0 <= i < j < |repos| ==> !EqualsIgnoreCase(repos[i], repos[j])
  }

  /** `MutableList.remove(x)`: drops the first occurrence, if any. */
  function RemoveFirst(s: seq<string>, x: string): (r: seq<string>)
    ensures x !in s ==> r == s
    ensures x in s ==> multiset(r) == multiset(s) - multiset{x}
    ensures x in s ==> exists k :: 0 <= k < |s| && s[k] == x && x !in s[..k] && r == s[..k] + s[k + 1..]
  {
    var k := IndexOf(s, x);
    if k == -1 then s
    else
      assert s == s[..k] + [x] + s[k + 1..];
      s[..k] + s[k + 1..]
  }

  /** The list the screen shows: the "create" entry, then the repos in order. */
  function ReposWithCreate(repos: seq<string>): (r: seq<string>)
    ensures |r| == |repos| + 1 && r[0] == CREATE_REPO_ITEM && r[1..] == repos
  {
    [CREATE_REPO_ITEM] + repos
  }

  lemma NotExistsNotIn(repos: seq<string>, name: string)
    requires !RepoExistsIn(repos, name)
    ensures name !in repos
  {
    forall i | 0 <= i < |repos|
      ensures EqualsIgnoreCase(repos[i], repos[i])
    {
      EqualsIgnoreCaseRefl(repos[i]);
    }
  }

  /** A name that passes the checks keeps the list unique when put in front of it. */
  lemma CreateKeepsUnique(repos: seq<string>, name: string)
    requires UniqueIgnoreCase(repos)
    requires CheckRepo(repos, name) == None
    ensures UniqueIgnoreCase([name] + repos)
  {
    var r := [name] + repos;
    forall i, j | 0 <= i < j < |r|
      ensures !EqualsIgnoreCase(r[i], r[j])
    {
      if i == 0 {
        assert r[j] == repos[j - 1];
      } else {
        assert r[i] == repos[i - 1] && r[j] == repos[j - 1];
      }
    }
  }

  /** Replacing one entry by a name that passes the checks keeps the list unique. */
  lemma RenameKeepsUnique(repos: seq<string>, k: nat, name: string)
    requires UniqueIgnoreCase(repos) && k < |repos|
    requires CheckRepo(repos, name) == None
    ensures UniqueIgnoreCase(repos[k := name])
  {
    var r := repos[k := name];
    forall i, j | 0 <= i < j < |r|
      ensures !EqualsIgnoreCase(r[i], r[j])
    {
      if i == k {
        assert r[j] == repos[j];
      } else if j == k {
        assert EqualsIgnoreCase(r[i], name) ==> RepoExistsIn(repos, name);
      }
    }
  }

  /** Removing an entry keeps the list unique. */
  lemma DeleteKeepsUnique(repos: seq<string>, x: string)
    requires UniqueIgnoreCase(repos)
    ensures UniqueIgnoreCase(RemoveFirst(repos, x))
  {
    var k := IndexOf(repos, x);
    if k != -1 {
      var r := repos[..k] + repos[k + 1..];
      assert RemoveFirst(repos, x) == r;
      forall i, j | 0 <= i < j < |r|
        ensures !EqualsIgnoreCase(r[i], r[j])
      {
        var i' := if i < k then i else i + 1;
        var j' := if j < k then j else j + 1;
        assert r[i] == repos[i'] && r[j] == repos[j'];
      }
    }
  }

  /** Deleting a just-created repo restores the list. */
  lemma DeleteUndoesCreate(repos: seq<string>, name: string)
    requires CheckRepo(repos, name) == None
    ensures RemoveFirst([name] + repos, name) == repos
  {
    assert IndexOf([name] + repos, name) == 0;
  }

  /** Renaming back undoes a rename: the new name is found where the old one was. */
  lemma RenameBackRestores(repos: seq<string>, repo: string, name: string)
    requires repo in repos
    requires CheckRepo(repos, name) == None
    ensures var k := IndexOf(repos, repo);
            var renamed := repos[k := name];
            && IndexOf(renamed, name) == k
            && renamed[k := repo] == repos
  {
    NotExistsNotIn(repos, name);
    var k := IndexOf(repos, repo);
    var renamed := repos[k := name];
    assert renamed[..k] == repos[..k];
    assert name !in renamed[..k];
    IndexOfAt(renamed, name, k);
  }

  // ---------------------------------------------------------------------------
  // The presenter

  class RepoPresenter {
    /** The repos in display order. */
    var repos: seq<string>
    /** The `extensionRepos` preference. */
    var savedRepos: set<string>
    /** The last list handed to the controller. */
    var shown: seq<string>
    /** The last error the controller was told about. */
    var lastError: Option<RepoError>

    constructor (saved: set<string>)
      ensures repos == [] && savedRepos == saved && shown == [] && lastError == None
    {
      repos := [];
      savedRepos := saved;
      shown := [];
      lastError := None;
    }

    /** `getRepos`: reload from the preference; `order` is the set's iteration order. */
    method GetRepos(order: seq<string>)
      requires (set r | r in order) == savedRepos
      modifies this`repos, this`shown
      ensures repos == order && shown == ReposWithCreate(order)
    {
      repos := [];
      repos := repos + order;
      shown := ReposWithCreate(repos);
    }

    /** `createRepo`: checks, then inserts at the front and persists. */
    method CreateRepo(name: string) returns (ok: bool)
      modifies this
      ensures ok <==> CheckRepo(old(repos), name) == None
      ensures ok ==> && repos == [name] + old(repos)
                     && savedRepos == set r | r in repos
                     && shown == ReposWithCreate(repos)
                     && lastError == old(lastError)
      ensures !ok ==> && repos == old(repos) && savedRepos == old(savedRepos)
                      && shown == old(shown) && lastError == CheckRepo(old(repos), name)
      ensures UniqueIgnoreCase(old(repos)) ==> UniqueIgnoreCase(repos)
    {
      var err := CheckRepo(repos, name);
      if err.Some? {
        lastError := err;
        return false;
      }
      if UniqueIgnoreCase(repos) {
        CreateKeepsUnique(repos, name);
      }
      repos := [name] + repos;
      savedRepos := set r | r in repos;
      shown := ReposWithCreate(repos);
      ok := true;
    }

    /** `deleteRepo`: a null repo is ignored; otherwise its first occurrence goes. */
    method DeleteRepo(repo: Option<string>)
      modifies this
      ensures repo == None ==> repos == old(repos) && savedRepos == old(savedRepos) && shown == old(shown)
      ensures repo.Some? ==> && repos == RemoveFirst(old(repos), repo.value)
                             && savedRepos == set r | r in repos
                             && shown == ReposWithCreate(repos)
      ensures lastError == old(lastError)
      ensures UniqueIgnoreCase(old(repos)) ==> UniqueIgnoreCase(repos)
    {
      if repo == None {
        return;
      }
      if UniqueIgnoreCase(repos) {
        DeleteKeepsUnique(repos, repo.value);
      }
      repos := RemoveFirst(repos, repo.value);
      savedRepos := set r | r in repos;
      shown := ReposWithCreate(repos);
    }

    /** `renameRepo`: a rename that only changes case is accepted and does nothing; any
      * other is checked like a create, then replaces the old entry in place. `Err` is the
      * IndexOutOfBoundsException of `repos[-1] = name` when `repo` is not in the list. */
    method RenameRepo(repo: string, name: string) returns (r: Result<bool, string>)
      modifies this
      ensures EqualsIgnoreCase(repo, name) ==>
                && r == Ok(true) && repos == old(repos) && savedRepos == old(savedRepos)
                && shown == old(shown) && lastError == old(lastError)
      ensures !EqualsIgnoreCase(repo, name) && CheckRepo(old(repos), name).Some? ==>
                r == Ok(false) && repos == old(repos) && lastError == CheckRepo(old(repos), name)
      ensures !EqualsIgnoreCase(repo, name) && CheckRepo(old(repos), name) == None && repo !in old(repos) ==>
                r.Err? && repos == old(repos) && lastError == old(lastError)
      ensures !EqualsIgnoreCase(repo, name) && CheckRepo(old(repos), name) == None && repo in old(repos) ==>
                && r == Ok(true)
                && repos == old(repos)[IndexOf(old(repos), repo) := name]
                && savedRepos == (set x | x in repos)
                && shown == ReposWithCreate(repos)
                && lastError == old(lastError)
      ensures r != Ok(true) || !EqualsIgnoreCase(repo, name) ==> |repos| == |old(repos)|
      ensures !r.Ok? || !r.value ==> savedRepos == old(savedRepos) && shown == old(shown)
      ensures UniqueIgnoreCase(old(repos)) ==> UniqueIgnoreCase(repos)
    {
      if !EqualsIgnoreCase(repo, name) {
        var err := CheckRepo(repos, name);
        if err.Some? {
          lastError := err;
          return Ok(false);
        }
        var k := IndexOf(repos, repo);
        if k == -1 {
          return Err("IndexOutOfBoundsException");
        }
        if UniqueIgnoreCase(repos) {
          RenameKeepsUnique(repos, k, name);
        }
        repos := repos[k := name];
        savedRepos := set x | x in repos;
        shown := ReposWithCreate(repos);
      }
      r := Ok(true);
    }
  }
}

/**
 * Reading the action's configuration: the environment is a map from variable names to
 * values (an unset variable reads as ""), and the transforms applied to the values read.
 */
module Config {
  import opened Wrappers
  import opened Strings

  type Env = map<string, string>

  /** `os.Getenv(name)`: the value, or "" when the variable is unset. */
  function Getenv(env: Env, name: string): string
  {
    if name in env then env[name] else ""
  }

  // ---------------------------------------------------------------------
  // Branch sanitisation

  const MAX_BRANCH_LENGTH: nat := 10

  /** The bytes the pattern `[^a-zA-Z0-9-]+` does not match. */
  predicate IsAllowed(c: char)
  {
    ('a' <= c <= 'z') || ('A' <= c <= 'Z') || ('0' <= c <= '9') || c == '-'
  }

  /** Replacing every match of `[^a-zA-Z0-9-]+` with "": every disallowed byte is deleted. */
  function StripDisallowed(s: string): (r: string)
    ensures |r| <= |s|
    ensures forall i :: 0 <= i < |r| ==> IsAllowed(r[i])
  {
    if s == [] then []
    else
      var rest := StripDisallowed(s[1..]);
      if IsAllowed(s[0]) then [s[0]] + rest else rest
  }

  /** Stripping distributes over concatenation: bytes are judged one at a time, in order. */
  lemma {:induction false} StripDisallowedAppend(a: string, b: string)
    ensures StripDisallowed(a + b) == StripDisallowed(a) + StripDisallowed(b)
  {
    if a != [] {
      assert (a + b)[0] == a[0];
      assert (a + b)[1..] == a[1..] + b;
      StripDisallowedAppend(a[1..], b);
      if IsAllowed(a[0]) {
        assert StripDisallowed(a + b) == [a[0]] + StripDisallowed(a[1..] + b);
      } else {
        assert StripDisallowed(a + b) == StripDisallowed(a[1..] + b);
      }
    } else {
      assert a + b == b;
    }
  }

  /** A string of allowed bytes only is left as it is. */
  lemma {:induction false} StripDisallowedKeepsAllowed(s: string)
    requires forall i :: 0 <= i < |s| ==> IsAllowed(s[i])
    ensures StripDisallowed(s) == s
  {
    if s != [] {
      StripDisallowedKeepsAllowed(s[1..]);
    }
  }

  /** A run of disallowed bytes, as one match of the pattern covers, is deleted outright. */
  lemma {:induction false} StripDisallowedDropsDisallowed(s: string)
    requires forall i :: 0 <= i < |s| ==> !IsAllowed(s[i])
    ensures StripDisallowed(s) == []
  {
    if s != [] {
      StripDisallowedDropsDisallowed(s[1..]);
    }
  }

  /** The branch as the configuration keeps it: its first ten bytes, disallowed bytes deleted. */
  function SanitizeBranch(branch: string): (r: string)
    ensures |r| <= MAX_BRANCH_LENGTH
    ensures forall i :: 0 <= i < |r| ==> IsAllowed(r[i])
    ensures branch == "" ==> r == ""
  {
    if branch == "" then ""
    else
      var truncated := if |branch| > MAX_BRANCH_LENGTH then branch[..MAX_BRANCH_LENGTH] else branch;
      StripDisallowed(truncated)
  }

  /** Truncation happens before stripping: the result is the allowed bytes among the first ten. */
  lemma SanitizeBranchTruncatesFirst(branch: string, tail: string)
    requires |branch| == MAX_BRANCH_LENGTH
    ensures SanitizeBranch(branch + tail) == StripDisallowed(branch)
  {
    if tail == [] {
      assert branch + tail == branch;
    } else {
      assert (branch + tail)[..MAX_BRANCH_LENGTH] == branch;
    }
  }

  /** Sanitising a sanitised branch changes nothing. */
  lemma SanitizeBranchIdempotent(branch: string)
    ensures SanitizeBranch(SanitizeBranch(branch)) == SanitizeBranch(branch)
  {
    StripDisallowedKeepsAllowed(SanitizeBranch(branch));
  }

  /**
   * A branch such as `feature/ABC!! very-long-name`: two allowed words around a `/` filling
   * the first ten bytes, then anything. The words are kept, joined without the `/`
   * (`featureAB`), and the rest is dropped.
   */
  lemma SanitizeBranchDropsSeparator(a: string, b: string, tail: string)
    requires forall i :: 0 <= i < |a| ==> IsAllowed(a[i])
    requires forall i :: 0 <= i < |b| ==> IsAllowed(b[i])
    requires |a| + 1 + |b| == MAX_BRANCH_LENGTH
    ensures SanitizeBranch(a + "/" + b + tail) == a + b
  {
    var firstTen := a + ("/" + b);
    assert a + "/" + b + tail == firstTen + tail;
    SanitizeBranchTruncatesFirst(firstTen, tail);
    StripDisallowedAppend(a, "/" + b);
    StripDisallowedAppend("/", b);
    StripDisallowedKeepsAllowed(a);
    StripDisallowedKeepsAllowed(b);
  }

  // ---------------------------------------------------------------------
  // Skip lists

  /** `list` is what the skip-list code makes of `value`. */
  predicate IsSkipListOf(value: string, list: seq<string>)
  {
    if value == "" then list == []
    else
      var pieces := Split(value, ',');
      |list| == |pieces| && forall i :: 0 <= i < |list| ==> list[i] == TrimSpace(pieces[i])
  }

  /** Split a comma-separated skip list and trim each piece in place; "" gives no entries. */
  method ParseSkipList(value: string) returns (list: seq<string>)
    ensures IsSkipListOf(value, list)
    ensures value == "" ==> list == []
    ensures value != "" ==> |list| == Count(value, ',') + 1
    ensures forall i :: 0 <= i < |list| ==> ',' !in list[i]
  {
    if value != "" {
      var splitstring := Split(value, ',');
      ghost var pieces := splitstring;
      SplitPiecesHaveNoSeparator(value, ',');
      SplitCount(value, ',');
      for i := 0 to |splitstring|
        invariant |splitstring| == |pieces|
        invariant forall k :: 0 <= k < i ==> splitstring[k] == TrimSpace(pieces[k])
        invariant forall k :: i <= k < |splitstring| ==> splitstring[k] == pieces[k]
      {
        splitstring := splitstring[i := TrimSpace(splitstring[i])];
      }
      list := splitstring;
      forall i | 0 <= i < |list| ensures ',' !in list[i] {
        TrimSpaceKeepsBytes(pieces[i]);
      }
    } else {
      list := [];
    }
  }

  /** Each skip-list entry carries no white space at either end. */
  lemma SkipListEntriesTrimmed(value: string, list: seq<string>)
    requires IsSkipListOf(value, list)
    ensures forall i :: 0 <= i < |list| ==> list[i] == [] || (!IsSpace(list[i][0]) && !IsSpace(list[i][|list[i]| - 1]))
  {
    if value != "" {
      var pieces := Split(value, ',');
      forall i | 0 <= i < |list| ensures list[i] == [] || (!IsSpace(list[i][0]) && !IsSpace(list[i][|list[i]| - 1])) {
        assert list[i] == TrimSpace(pieces[i]);
      }
    }
  }

  /** Without white space, joining the entries back with commas gives the original value. */
  lemma SkipListRoundTrip(value: string, list: seq<string>)
    requires IsSkipListOf(value, list) && value != ""
    requires forall i :: 0 <= i < |value| ==> !IsSpace(value[i])
    ensures Join(list, ',') == value
  {
    var pieces := Split(value, ',');
    forall i | 0 <= i < |pieces| ensures list[i] == pieces[i] {
      PieceOfSpaceFree(value, i);
      TrimSpaceKeepsTrimmed(pieces[i]);
    }
    assert list == pieces;
    JoinSplit(value, ',');
  }

  /** A piece of a space-free string is space-free. */
  lemma {:induction false} PieceOfSpaceFree(value: string, i: nat)
    requires forall k :: 0 <= k < |value| ==> !IsSpace(value[k])
    requires i < |Split(value, ',')|
    ensures forall k :: 0 <= k < |Split(value, ',')[i]| ==> !IsSpace(Split(value, ',')[i][k])
  {
    if value != [] {
      var rest := Split(value[1..], ',');
      if value[0] == ',' {
        if i > 0 { PieceOfSpaceFree(value[1..], i - 1); }
      } else if i == 0 {
        PieceOfSpaceFree(value[1..], 0);
        assert Split(value, ',')[0] == [value[0]] + rest[0];
      } else {
        PieceOfSpaceFree(value[1..], i);
      }
    }
  }

  // ---------------------------------------------------------------------
  // The scanning action's configuration (main.go)

  datatype SnykConfig = SnykConfig(
    snykToken: string,
    snykOrg: string,
    githubWorkspace: string,
    noMonitor: bool,
    skipPlatforms: seq<string>,
    skipProjects: seq<string>,
    debug: bool,
    branch: string)

  /**
   * `getEnvVar` of the scanning action: token, organisation and workspace are required,
   * in that order; every other setting has a fallback.
   */
  method GetSnykEnvVar(env: Env) returns (r: Result<SnykConfig, string>)
    ensures Getenv(env, "INPUT_SNYKTOKEN") == "" ==> r == Err("no snyk token set")
    ensures Getenv(env, "INPUT_SNYKTOKEN") != "" && Getenv(env, "INPUT_SNYKORG") == "" ==>
      r == Err("no snyk org set")
    ensures (Getenv(env, "INPUT_SNYKTOKEN") != "" && Getenv(env, "INPUT_SNYKORG") != "" &&
             Getenv(env, "GITHUB_WORKSPACE") == "") ==> r == Err("no github workspace set")
    ensures r.Ok? <==>
      Getenv(env, "INPUT_SNYKTOKEN") != "" && Getenv(env, "INPUT_SNYKORG") != "" && Getenv(env, "GITHUB_WORKSPACE") != ""
    ensures r.Ok? ==>
      r.value.snykToken == Getenv(env, "INPUT_SNYKTOKEN") &&
      r.value.snykOrg == Getenv(env, "INPUT_SNYKORG") &&
      r.value.githubWorkspace == Getenv(env, "GITHUB_WORKSPACE") &&
      r.value.noMonitor == (Getenv(env, "INPUT_NOMONITOR") != "") &&
      IsSkipListOf(Getenv(env, "INPUT_SKIPPLATFORMS"), r.value.skipPlatforms) &&
      IsSkipListOf(Getenv(env, "INPUT_SKIPPROJECTS"), r.value.skipProjects) &&
      r.value.debug == (Getenv(env, "INPUT_SVDEBUG") != "") &&
      r.value.branch == SanitizeBranch(Getenv(env, "INPUT_BRANCH"))
  {
    var token := Getenv(env, "INPUT_SNYKTOKEN");
    if token == "" {
      return Err("no snyk token set");
    }
    var org := Getenv(env, "INPUT_SNYKORG");
    if org == "" {
      return Err("no snyk org set");
    }
    var workspace := Getenv(env, "GITHUB_WORKSPACE");
    if workspace == "" {
      return Err("no github workspace set");
    }
    var skipPlatforms := ParseSkipList(Getenv(env, "INPUT_SKIPPLATFORMS"));
    var skipProjects := ParseSkipList(Getenv(env, "INPUT_SKIPPROJECTS"));
    var conf := SnykConfig(
      token, org, workspace, Getenv(env, "INPUT_NOMONITOR") != "",
      skipPlatforms, skipProjects, Getenv(env, "INPUT_SVDEBUG") != "",
      SanitizeBranch(Getenv(env, "INPUT_BRANCH")));
    return Ok(conf);
  }

  // ---------------------------------------------------------------------
  // The policy-check action's configuration (main_test.go)

  datatype MendConfig = MendConfig(
    mendApiKey: string,
    mendUserKey: string,
    mendUrl: string,
    productName: string,
    projectName: string,
    githubWorkspace: string,
    skipPlatforms: seq<string>,
    skipProjects: seq<string>,
    debug: bool,
    branch: string)

  /** `getRequiredVar`: the value, or a fatal error with the given message when it is empty. */
  function GetRequiredVar(env: Env, varName: string, errorMessage: string): (r: Result<string, string>)
    ensures r.Ok? <==> Getenv(env, varName) != ""
    ensures r.Ok? ==> r.value == Getenv(env, varName)
    ensures r.Err? ==> r.error == errorMessage
  {
    var varVal := Getenv(env, varName);
    if varVal == "" then Err(errorMessage) else Ok(varVal)
  }

  /** `getOptionalEnvVar`: the value stored through the pointer, the default when the variable is empty. */
  function GetOptionalEnvVar(env: Env, varName: string, defaultVal: string): (stored: string)
    ensures stored != "" <==> Getenv(env, varName) != "" || defaultVal != ""
    ensures Getenv(env, varName) != "" ==> stored == Getenv(env, varName)
    ensures Getenv(env, varName) == "" ==> stored == defaultVal
  {
    var varVal := Getenv(env, varName);
    if varVal == "" then defaultVal else varVal
  }

  /** The first `n` of the policy-check action's required settings are non-empty, in checking order. */
  predicate MendSetUpTo(env: Env, n: nat)
  {
    (n >= 1 ==> Getenv(env, "INPUT_MENDAPIKEY") != "") &&
    (n >= 2 ==> Getenv(env, "INPUT_MENDTOKEN") != "") &&
    (n >= 3 ==> Getenv(env, "INPUT_MENDURL") != "") &&
    (n >= 4 ==> Getenv(env, "INPUT_PRODUCTNAME") != "") &&
    (n >= 5 ==> Getenv(env, "INPUT_PROJECTNAME") != "") &&
    (n >= 6 ==> Getenv(env, "GITHUB_WORKSPACE") != "")
  }

  /**
   * `getEnvVar` of the policy-check action: five required settings (each fatal when missing),
   * then the workspace, then the same skip lists, debug flag and branch as the scanning action.
   */
  method GetMendEnvVar(env: Env) returns (r: Result<MendConfig, string>)
    ensures Getenv(env, "INPUT_MENDAPIKEY") == "" ==> r == Err("no mend API key set!")
    ensures MendSetUpTo(env, 1) && Getenv(env, "INPUT_MENDTOKEN") == "" ==> r == Err("no mend User Token set!")
    ensures MendSetUpTo(env, 2) && Getenv(env, "INPUT_MENDURL") == "" ==> r == Err("no mend URL set!")
    ensures MendSetUpTo(env, 3) && Getenv(env, "INPUT_PRODUCTNAME") == "" ==> r == Err("no product name set")
    ensures MendSetUpTo(env, 4) && Getenv(env, "INPUT_PROJECTNAME") == "" ==> r == Err("no base project name set")
    ensures MendSetUpTo(env, 5) && Getenv(env, "GITHUB_WORKSPACE") == "" ==> r == Err("no github workspace set")
    ensures r.Ok? <==> MendSetUpTo(env, 6)
    ensures r.Ok? ==>
      r.value.mendApiKey == Getenv(env, "INPUT_MENDAPIKEY") &&
      r.value.mendUserKey == Getenv(env, "INPUT_MENDTOKEN") &&
      r.value.mendUrl == Getenv(env, "INPUT_MENDURL") &&
      r.value.productName == Getenv(env, "INPUT_PRODUCTNAME") &&
      r.value.projectName == Getenv(env, "INPUT_PROJECTNAME") &&
      r.value.githubWorkspace == Getenv(env, "GITHUB_WORKSPACE") &&
      IsSkipListOf(Getenv(env, "INPUT_SKIPPLATFORMS"), r.value.skipPlatforms) &&
      IsSkipListOf(Getenv(env, "INPUT_SKIPPROJECTS"), r.value.skipProjects) &&
      r.value.debug == (Getenv(env, "INPUT_SVDEBUG") != "") &&
      r.value.branch == SanitizeBranch(Getenv(env, "INPUT_BRANCH"))
  {
    var conf := MendConfig("", "", "", "", "", "", [], [], false, "");
    var v := GetRequiredVar(env, "INPUT_MENDAPIKEY", "no mend API key set!");
    if v.Err? { return Err(v.error); }
    conf := conf.(mendApiKey := v.value);
    v := GetRequiredVar(env, "INPUT_MENDTOKEN", "no mend User Token set!");
    if v.Err? { return Err(v.error); }
    conf := conf.(mendUserKey := v.value);
    v := GetRequiredVar(env, "INPUT_MENDURL", "no mend URL set!");
    if v.Err? { return Err(v.error); }
    conf := conf.(mendUrl := v.value);
    v := GetRequiredVar(env, "INPUT_PRODUCTNAME", "no product name set");
    if v.Err? { return Err(v.error); }
    conf := conf.(productName := v.value);
    v := GetRequiredVar(env, "INPUT_PROJECTNAME", "no base project name set");
    if v.Err? { return Err(v.error); }
    conf := conf.(projectName := v.value);
    var workspace := Getenv(env, "GITHUB_WORKSPACE");
    if workspace == "" {
      return Err("no github workspace set");
    }
    conf := conf.(githubWorkspace := workspace);
    var skipPlatforms := ParseSkipList(Getenv(env, "INPUT_SKIPPLATFORMS"));
    var skipProjects := ParseSkipList(Getenv(env, "INPUT_SKIPPROJECTS"));
    conf := conf.(skipPlatforms := skipPlatforms, skipProjects := skipProjects);
    conf := conf.(debug := Getenv(env, "INPUT_SVDEBUG") != "");
    conf := conf.(branch := SanitizeBranch(Getenv(env, "INPUT_BRANCH")));
    return Ok(conf);
  }
}

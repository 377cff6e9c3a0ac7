/** `getPackageManager` of src/lib/pkg.ts: which package manager launched the CLI. */
module Pkg {
  import opened Wrappers
  import opened Text

  datatype PackageManager = PackageManager(name: string, version: Option<string>)

  const DefaultManager := PackageManager("npm", None)

  /**
   * The manager named by the first word of the agent, `name/version/...`: the text before
   * the first "/" unless empty, and the text between the first and second "/" unless empty.
   */
  function FromFirstWord(first: string): (r: PackageManager)
    ensures r.name != ""
    ensures r.version.Some? ==> r.version.value != ""
    ensures r.name == (if Before(first, '/') != "" then Before(first, '/') else "npm")
    ensures r.version == (if '/' in first && Before(After(first, '/'), '/') != ""
                          then Some(Before(After(first, '/'), '/')) else None)
  {
    if first == "" then DefaultManager
    else
      SplitFirstTwo(first, '/');
      var parts := Split(first, '/');
      PackageManager(if parts[0] != "" then parts[0] else "npm",
                     if |parts| >= 2 && parts[1] != "" then Some(parts[1]) else None)
  }

  /**
   * `userAgent` is the optional argument and `envAgent` the `npm_config_user_agent`
   * variable; only the first space-separated word of the agent is inspected.
   */
  function GetPackageManager(userAgent: Option<string>, envAgent: Option<string>): (r: PackageManager)
    ensures r.name != ""
    ensures r.version.Some? ==> r.version.value != ""
  {
    var ua := if userAgent.Some? then userAgent else envAgent;
    if !Truthy(ua) then DefaultManager else FromFirstWord(Split(ua.value, ' ')[0])
  }

  /** An absent or empty agent gives npm without a version. */
  lemma MissingAgentIsNpm(envAgent: Option<string>)
    requires !Truthy(envAgent)
    ensures GetPackageManager(None, envAgent) == DefaultManager
    ensures GetPackageManager(Some(""), envAgent) == DefaultManager
  {
  }

  /** A given argument, even an empty one, takes precedence over the environment. */
  lemma ArgumentBeatsEnvironment(userAgent: string, envAgent: Option<string>)
    ensures GetPackageManager(Some(userAgent), envAgent) == GetPackageManager(Some(userAgent), None)
  {
  }

  /** Only the first space-separated word counts; an agent starting with a space gives npm. */
  lemma OnlyFirstWord(word: string, rest: string, envAgent: Option<string>)
    requires ' ' !in word
    ensures GetPackageManager(Some(word + " " + rest), envAgent) == GetPackageManager(Some(word), envAgent)
    ensures GetPackageManager(Some(" " + rest), envAgent) == DefaultManager
  {
    var ua := word + " " + rest;
    IndexOfAfterPrefix(word, ' ', rest);
    assert ua[..|word|] == word;
    SplitFirst(ua, ' ');
    assert Split(ua, ' ')[0] == word;
    SplitFirst(word, ' ');
    assert Split(word, ' ')[0] == word;
    assert "" + " " + rest == " " + rest;
    IndexOfAfterPrefix("", ' ', rest);
    SplitFirst(" " + rest, ' ');
    assert Split(" " + rest, ' ')[0] == "";
  }

  /** `name/version` gives that name and version; anything after a second '/' is ignored. */
  lemma NameAndVersion(name: string, version: string, tail: string, envAgent: Option<string>)
    requires name != "" && version != ""
    requires ' ' !in name && '/' !in name && ' ' !in version && '/' !in version && ' ' !in tail
    requires tail == "" || tail[0] == '/'
    ensures GetPackageManager(Some(name + "/" + version + tail), envAgent) == PackageManager(name, Some(version))
  {
    var ua := name + "/" + version + tail;
    assert ' ' !in ua by {
      forall k | 0 <= k < |ua| ensures ua[k] != ' ' {
        if k < |name| { assert ua[k] == name[k]; }
        else if k == |name| { }
        else if k < |name| + 1 + |version| { assert ua[k] == version[k - |name| - 1]; }
        else { assert ua[k] == tail[k - |name| - 1 - |version|]; }
      }
    }
    SplitFirst(ua, ' ');
    assert Split(ua, ' ')[0] == ua;
    assert ua == name + "/" + (version + tail);
    IndexOfAfterPrefix(name, '/', version + tail);
    assert ua[..|name|] == name;
    assert ua[|name| + 1..] == version + tail;
    SplitFirst(ua, '/');
    SplitSecond(ua, '/');
    SlashFreePrefix(version, tail);
    assert Split(ua, '/')[0] == name && Split(ua, '/')[1] == version;
  }

  lemma SlashFreePrefix(version: string, tail: string)
    requires '/' !in version
    requires tail == "" || tail[0] == '/'
    ensures Before(version + tail, '/') == version
  {
    if tail == "" {
      assert version + tail == version;
    } else {
      assert version + tail == version + [tail[0]] + tail[1..];
      IndexOfAfterPrefix(version, '/', tail[1..]);
      assert (version + tail)[..|version|] == version;
    }
  }
}

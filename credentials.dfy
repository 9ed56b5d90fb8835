/** Where the Garmin Connect login comes from, and how the password is
    shown in the debug log.

    The package (garmin_uploader/user.py) and the older front end
    (lib/cli.py) take the command-line pair only when both values are
    non-empty; the standalone script (gupload.py) takes its `-l` pair
    whenever it is given. Either way the configuration file in the working
    directory comes next, then the one in the home directory. */
module Credentials {
  import opened Base

  datatype Credentials = Credentials(username: string, password: string)

  /** A configuration file: absent, or present with the two options of its
      `[Credentials]` section (`None` when `config.get` would raise because
      the section or an option is missing). */
  datatype ConfigFile = Absent | Present(entries: Option<Credentials>)

  /** The file in the working directory and the one in the home directory. */
  datatype Configs = Configs(cwd: ConfigFile, home: ConfigFile)

  datatype CredentialError =
    | NoConfigFile        // IOError in the package and lib/cli.py, exit(1) in gupload.py
    | ConfigIncomplete    // ConfigParser.NoSectionError / NoOptionError

  function ReadConfig(f: ConfigFile): Result<Credentials, CredentialError>
    requires f.Present?
  {
    if f.entries.Some? then Ok(f.entries.value) else Err(ConfigIncomplete)
  }

  /** The configuration files, working directory first. */
  function FromConfigs(c: Configs): Result<Credentials, CredentialError> {
    if c.cwd.Present? then ReadConfig(c.cwd)
    else if c.home.Present? then ReadConfig(c.home)
    else Err(NoConfigFile)
  }

  /** `User.__init__` and `gupload.__init__`: both command-line values must
      be truthy to be used. */
  function Choose(username: Option<string>, password: Option<string>, c: Configs): Result<Credentials, CredentialError> {
    if Truthy(username) && Truthy(password) then Ok(Credentials(username.value, password.value))
    else FromConfigs(c)
  }

  /** gupload.py: the `-l USER PASSWORD` pair is used as given. */
  function ChooseForScript(pair: Option<Credentials>, c: Configs): Result<Credentials, CredentialError> {
    if pair.Some? then Ok(pair.value) else FromConfigs(c)
  }

  /** A complete command-line pair overrides every configuration file. */
  lemma CommandLineOverridesConfigs(username: string, password: string, c: Configs, c': Configs)
    requires |username| > 0 && |password| > 0
    ensures Choose(Some(username), Some(password), c) == Ok(Credentials(username, password))
    ensures Choose(Some(username), Some(password), c) == Choose(Some(username), Some(password), c')
    ensures ChooseForScript(Some(Credentials(username, password)), c) == Choose(Some(username), Some(password), c')
  {
  }

  /** Without a complete pair, an existing file in the working directory
      decides, whatever the home directory holds; only when neither file
      exists is there no source. */
  lemma WorkingDirectoryBeforeHome(username: Option<string>, password: Option<string>, cwd: ConfigFile, home: ConfigFile, home': ConfigFile)
    requires !(Truthy(username) && Truthy(password))
    ensures cwd.Present? ==> Choose(username, password, Configs(cwd, home)) == Choose(username, password, Configs(cwd, home'))
    ensures cwd.Present? && cwd.entries.Some? ==> Choose(username, password, Configs(cwd, home)) == Ok(cwd.entries.value)
    ensures cwd.Absent? && home.Present? ==> Choose(username, password, Configs(cwd, home)) == ReadConfig(home)
    ensures Choose(username, password, Configs(cwd, home)) == Err(NoConfigFile) <==> cwd.Absent? && home.Absent?
  {
  }

  /** A half-given or empty command-line pair is ignored by the package,
      while the script takes an `-l` pair of empty strings at its word. */
  lemma EmptyPairDiffers(c: Configs)
    ensures Choose(Some(""), Some(""), c) == FromConfigs(c)
    ensures Choose(Some("user"), None, c) == FromConfigs(c)
    ensures ChooseForScript(Some(Credentials("", "")), c) == Ok(Credentials("", ""))
  {
  }

  /** The password as logged: one `*` per character. */
  function Masked(password: string): (r: string)
    ensures |r| == |password|
    ensures forall i :: 0 <= i < |r| ==> r[i] == '*'
  {
    Repeat('*', |password|)
  }

  /** `obscurePassword` of gupload.py, as a value: one character becomes
      `*`; two become the second character and `*`; longer ones keep their
      first and last characters around a run of `*`. */
  function Obscured(password: string): string
    requires |password| > 0
  {
    if |password| == 1 then "*"
    else if |password| == 2 then [password[1], '*']
    else [password[0]] + Repeat('*', |password| - 2) + [password[|password| - 1]]
  }

  /** The obscured password has the password's length, never shows an
      inner character, and shows at most the two end characters. */
  lemma ObscuredShape(password: string)
    requires |password| > 0
    ensures |Obscured(password)| == |password|
    ensures forall i :: 0 < i < |password| - 1 ==> Obscured(password)[i] == '*'
    ensures |password| >= 3 ==>
      Obscured(password)[0] == password[0] && Obscured(password)[|password| - 1] == password[|password| - 1]
    ensures |password| <= 2 ==> Obscured(password)[|password| - 1] == '*'
  {
    var n := |password|;
    if n >= 3 {
      var r := Obscured(password);
      assert r == [password[0]] + Repeat('*', n - 2) + [password[n - 1]];
      forall i | 0 < i < n - 1
        ensures r[i] == '*'
      {
        assert r[i] == Repeat('*', n - 2)[i - 1];
      }
    }
  }

  /** `obscurePassword(password)`: `None` is the IndexError an empty
      password raises when its first character is read. */
  method ObscurePassword(password: string) returns (r: Option<string>)
    ensures r.None? <==> password == []
    ensures r.Some? ==> r.value == Obscured(password)
  {
    var length := |password|;
    if length == 1 {
      return Some("*");
    } else if length == 2 {
      return Some([password[1]] + "*");
    }
    if length == 0 {
      return None;
    }
    var obscured := [password[0]];
    var i := 1;
    while i < length - 1
      invariant 1 <= i <= length - 1
      invariant obscured == [password[0]] + Repeat('*', i - 1)
    {
      obscured := obscured + "*";
      i := i + 1;
    }
    obscured := obscured + [password[length - 1]];
    return Some(obscured);
  }
}

/**
 * The parameter selection of the `ssh` command: which discovered service entry
 * belongs to the machine, which credentials its TXT strings carry (key/value
 * strings as in section 6 of RFC 6763), which authentication methods are
 * offered, where to dial and what to run. Service discovery, the agent, the
 * SSH session and the terminal plumbing are outside the model: the discovered
 * entries arrive as a sequence in the order they were received.
 */
module SshCommand {
  import opened Wrappers
  import opened Text

  const MACHINE_KEY: string := "fog="
  const USER_KEY: string := "u="
  const PASSWORD_KEY: string := "p="
  const LOOPBACK: string := "127.0.0.1"
  const DEFAULT_COMMAND: string := "/bin/sh"

  /** A discovered service: its port and its TXT strings. */
  datatype ServiceEntry = ServiceEntry(port: int, infoFields: seq<string>)

  /** The entry advertises the machine called name. */
  predicate Advertises(entry: ServiceEntry, name: string) {
    MACHINE_KEY + name in entry.infoFields
  }

  /**
   * The first received entry that advertises name. None means no entry does,
   * in which case the command waits forever (it has no timeout).
   */
  method SelectEntry(entries: seq<ServiceEntry>, name: string) returns (r: Option<ServiceEntry>)
    ensures r.None? <==> forall k :: 0 <= k < |entries| ==> !Advertises(entries[k], name)
    ensures r.Some? ==> exists k :: 0 <= k < |entries| && entries[k] == r.value && IsFirstAdvertising(entries, name, k)
  {
    var wanted := MACHINE_KEY + name;
    for k := 0 to |entries|
      invariant forall j :: 0 <= j < k ==> !Advertises(entries[j], name)
    {
      var fields := entries[k].infoFields;
      for i := 0 to |fields|
        invariant wanted !in fields[..i]
      {
        if fields[i] == wanted {
          return Some(entries[k]);
        }
        assert fields[..i + 1] == fields[..i] + [fields[i]];
      }
      assert fields[..|fields|] == fields;
    }
    return None;
  }

  predicate IsFirstAdvertising(entries: seq<ServiceEntry>, name: string, k: nat)
    requires k < |entries|
  {
    Advertises(entries[k], name) && forall j :: 0 <= j < k ==> !Advertises(entries[j], name)
  }

  // ---------------------------------------------------------------------------
  // Credentials

  /** The text after key in the last field that starts with it, or "" if none does. */
  function LastValue(fields: seq<string>, key: string): string
    decreases |fields|
  {
    if fields == [] then ""
    else
      var last := fields[|fields| - 1];
      if HasPrefix(last, key) then TrimPrefix(last, key) else LastValue(fields[..|fields| - 1], key)
  }

  /** The later of two fields with the key wins. */
  lemma {:induction false} LastValueIsLast(fields: seq<string>, key: string, k: nat)
    requires k < |fields| && HasPrefix(fields[k], key)
    requires forall j :: k < j < |fields| ==> !HasPrefix(fields[j], key)
    ensures LastValue(fields, key) == fields[k][|key|..]
    decreases |fields|
  {
    if k < |fields| - 1 {
      var init := fields[..|fields| - 1];
      assert forall j :: k < j < |init| ==> init[j] == fields[j];
      LastValueIsLast(init, key, k);
    }
  }

  /** Without a field that has the key, the value is empty. */
  lemma {:induction false} LastValueAbsent(fields: seq<string>, key: string)
    requires forall j :: 0 <= j < |fields| ==> !HasPrefix(fields[j], key)
    ensures LastValue(fields, key) == ""
    decreases |fields|
  {
    if fields != [] {
      var init := fields[..|fields| - 1];
      assert forall j :: 0 <= j < |init| ==> init[j] == fields[j];
      LastValueAbsent(init, key);
    }
  }

  /** The scan over the TXT strings: each "u=" field overwrites the user, each "p=" field the password. */
  method ScanCredentials(fields: seq<string>) returns (username: string, pw: string)
    ensures username == LastValue(fields, USER_KEY)
    ensures pw == LastValue(fields, PASSWORD_KEY)
  {
    username, pw := "", "";
    for i := 0 to |fields|
      invariant username == LastValue(fields[..i], USER_KEY)
      invariant pw == LastValue(fields[..i], PASSWORD_KEY)
    {
      var v := fields[i];
      assert fields[..i + 1][..i] == fields[..i];
      if HasPrefix(v, USER_KEY) {
        username := TrimPrefix(v, USER_KEY);
      }
      if HasPrefix(v, PASSWORD_KEY) {
        pw := TrimPrefix(v, PASSWORD_KEY);
      }
    }
    assert fields[..|fields|] == fields;
  }

  // ---------------------------------------------------------------------------
  // Authentication, address and command

  datatype AuthMethod = PublicKeysFromAgent | Password(secret: string)

  /** The agent's keys always; a password as well when one was advertised. */
  function Auths(pw: string): (auths: seq<AuthMethod>)
    ensures 1 <= |auths| <= 2 && auths[0] == PublicKeysFromAgent
    ensures |auths| == 2 <==> pw != ""
    ensures |auths| == 2 ==> auths[1] == Password(pw)
  {
    var keys := [PublicKeysFromAgent];
    if pw != "" then keys + [Password(pw)] else keys
  }

  /** The SSH daemon is reached on the loopback address at the advertised port. */
  function DialAddress(port: int): string {
    LOOPBACK + ":" + IntToString(port)
  }

  /** The host and the decimal port can be read back from the address. */
  lemma DialAddressParses(port: int)
    ensures HasPrefix(DialAddress(port), LOOPBACK + ":")
    ensures ParseInt(TrimPrefix(DialAddress(port), LOOPBACK + ":")) == Some(port)
  {
    var addr := DialAddress(port);
    assert addr[..|LOOPBACK + ":"|] == LOOPBACK + ":";
    assert addr[|LOOPBACK + ":"|..] == IntToString(port);
    IntRoundTrip(port);
  }

  /**
   * The command run remotely: a login shell when only the machine name was given,
   * otherwise the remaining arguments joined by single spaces. The command-line
   * parser guarantees at least one argument.
   */
  function RemoteCommand(args: seq<string>): (cmd: string)
    requires |args| >= 1
    ensures |args| == 1 ==> cmd == DEFAULT_COMMAND
  {
    if |args| > 1 then Join(args[1..], " ") else DEFAULT_COMMAND
  }

  /** Arguments without spaces can be recovered from the command by splitting at spaces. */
  lemma RemoteCommandWords(args: seq<string>)
    requires |args| > 1
    requires forall k :: 1 <= k < |args| ==> ' ' !in args[k]
    ensures Split(RemoteCommand(args), ' ') == args[1..]
  {
    var words := args[1..];
    assert forall k :: 0 <= k < |words| ==> words[k] == args[k + 1];
    SplitJoin(words, ' ');
  }
}

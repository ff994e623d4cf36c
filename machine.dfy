/**
 * A virtual machine: its identifier, the QEMU command line it is booted with,
 * and its console connection, which is dialled with a bounded retry and cached.
 * Looking up the binary, resolving runtime socket paths, spawning the process and
 * dialling the socket are outside the model: their outcomes arrive as parameters.
 */
module Machines {
  import opened Wrappers
  import opened Text
  import opened Config
  import opened Images

  const ID_BYTES: nat := 32
  const QEMU_BINARY: string := "qemu-system-x86_64"
  const DIAL_ATTEMPTS: nat := 3
  const MEMORY_MIB: string := "512"
  /** The host as seen from inside QEMU's user-mode network. */
  const HOST_FROM_GUEST: string := "10.0.2.2"

  predicate IsHexString(s: string) {
    forall i :: 0 <= i < |s| ==> s[i] in HEX_DIGITS
  }

  /** A machine ID: 32 random bytes in lowercase hex, the format Docker and Podman use. */
  function GenerateMachineID(random: Bytes): (id: string)
    requires |random| == ID_BYTES
    ensures |id| == 64 && IsHexString(id)
    ensures HexDecode(id) == Some(random)
  {
    HexRoundTrip(random);
    HexEncode(random)
  }

  // ---------------------------------------------------------------------------
  // Names and arguments derived from the machine ID and configuration

  function ConsoleSocketName(id: string): string {
    "fog/" + id + ".sock"
  }

  function MonitorSocketName(id: string): string {
    "fog/" + id + "_monitor.sock"
  }

  /** For hex IDs, no console socket name is ever a monitor socket name, whichever machines they belong to. */
  lemma SocketNamesDistinct(id1: string, id2: string)
    requires IsHexString(id1)
    ensures ConsoleSocketName(id1) != MonitorSocketName(id2)
  {
    var c, m := ConsoleSocketName(id1), MonitorSocketName(id2);
    assert m[4 + |id2|] == '_';
    forall i | 0 <= i < |c| ensures c[i] != '_' {
      if 4 <= i < 4 + |id1| {
        assert c[i] == id1[i - 4];
      }
    }
  }

  /** Each socket name determines the machine ID it was built from. */
  lemma SocketNamesInjective(id1: string, id2: string)
    ensures ConsoleSocketName(id1) == ConsoleSocketName(id2) ==> id1 == id2
    ensures MonitorSocketName(id1) == MonitorSocketName(id2) ==> id1 == id2
  {
    var c1, c2 := ConsoleSocketName(id1), ConsoleSocketName(id2);
    if c1 == c2 {
      assert id1 == c1[4..|c1| - 5] == id2;
    }
    var m1, m2 := MonitorSocketName(id1), MonitorSocketName(id2);
    if m1 == m2 {
      assert id1 == m1[4..|m1| - 13] == id2;
    }
  }

  /** The host-forward suffix of the user-mode network argument. */
  function Forwards(ports: seq<string>): string {
    if |ports| > 0 then ",hostfwd=" + Join(ports, ",") else ""
  }

  function NetworkArg(ports: seq<string>): string {
    "user" + Forwards(ports)
  }

  /** With forwards, the network argument carries every port rule, in order, and they can be split back out. */
  lemma NetworkArgCarriesPorts(ports: seq<string>)
    requires forall k :: 0 <= k < |ports| ==> ',' !in ports[k]
    ensures |ports| == 0 ==> NetworkArg(ports) == "user"
    ensures |ports| > 0 ==>
      HasPrefix(NetworkArg(ports), "user,hostfwd=") && Split(NetworkArg(ports)[13..], ',') == ports
  {
    if |ports| > 0 {
      var arg := NetworkArg(ports);
      assert arg[13..] == Join(ports, ",");
      SplitJoin(ports, ',');
    }
  }

  /** The NoCloud datasource URL: the metadata service as seen from the guest, scoped by machine ID. */
  function DatasourceUrl(imdsPort: int, id: string): string {
    "http://" + HOST_FROM_GUEST + ":" + IntToString(imdsPort) + "/" + id + "/"
  }

  function SmbiosArg(url: string): string {
    "type=1,serial=ds=nocloud-net;s=" + url
  }

  /** Different ports or different IDs give different datasource URLs. */
  lemma DatasourceUrlInjective(p1: int, id1: string, p2: int, id2: string)
    requires DatasourceUrl(p1, id1) == DatasourceUrl(p2, id2)
    ensures p1 == p2 && id1 == id2
  {
    var head := "http://" + HOST_FROM_GUEST + ":";
    var u := DatasourceUrl(p1, id1);
    var s1, s2 := IntToString(p1), IntToString(p2);
    assert '/' !in s1 && '/' !in s2;
    var rest1, rest2 := u[|head|..], DatasourceUrl(p2, id2)[|head|..];
    assert rest1 == s1 + "/" + (id1 + "/");
    assert rest2 == s2 + "/" + (id2 + "/");
    IndexOfAfter(s1, '/', id1 + "/");
    IndexOfAfter(s2, '/', id2 + "/");
    assert s1 == rest1[..|s1|] && s2 == rest2[..|s2|];
    IntToStringInjective(p1, p2);
    assert id1 + "/" == rest1[|s1| + 1..] && id2 + "/" == rest2[|s2| + 1..];
    assert id1 == (id1 + "/")[..|id1|];
    assert id2 == (id2 + "/")[..|id2|];
  }

  /** The QEMU argument vector: a pure function of the image, the two sockets, the metadata port, the ID and the forwards. */
  function QemuArgs(imgPath: string, addr: string, monAddr: string, imdsPort: int, id: string, ports: seq<string>): (args: seq<string>)
    ensures |args| == 26
    ensures args[4] == "-m" && args[5] == MEMORY_MIB
    ensures args[9] == "-hda" && args[10] == imgPath && args[11] == "-snapshot"
  {
    var network := NetworkArg(ports);
    var smbios := SmbiosArg(DatasourceUrl(imdsPort, id));
    var serial := "socket,id=serial,path=" + addr + ",server,nowait";
    var monitor := "socket,id=monitor,path=" + monAddr + ",server,nowait";
    var system := ["-machine", "accel=kvm:tcg", "-cpu", "host", "-m", MEMORY_MIB, "-nographic", "-vga", "none"];
    var boot := ["-hda", imgPath, "-snapshot"];
    var devices := [
      "-net", "nic", "-net", network,
      "-chardev", serial, "-serial", "chardev:serial",
      "-chardev", monitor, "-monitor", "chardev:monitor",
      "-smbios", smbios
    ];
    system + boot + devices
  }

  /** The network, console, monitor and datasource arguments. */
  lemma QemuArgsWiring(imgPath: string, addr: string, monAddr: string, imdsPort: int, id: string, ports: seq<string>)
    ensures var args := QemuArgs(imgPath, addr, monAddr, imdsPort, id, ports);
      && args[14] == "-net" && args[15] == NetworkArg(ports)
      && args[16] == "-chardev" && args[17] == "socket,id=serial,path=" + addr + ",server,nowait"
      && args[20] == "-chardev" && args[21] == "socket,id=monitor,path=" + monAddr + ",server,nowait"
      && args[24] == "-smbios" && args[25] == SmbiosArg(DatasourceUrl(imdsPort, id))
  {
  }

  // ---------------------------------------------------------------------------
  // The machine object

  datatype Connection = Connection(handle: nat)

  datatype DialResult = Connected(conn: Connection) | DialFailed(msg: string)

  datatype Command = Command(path: string, args: seq<string>)

  datatype StartError =
    | QemuNotFound(msg: string)
    | SocketPathFailed(msg: string)
    | MonitorSocketPathFailed(msg: string)
    | StartFailed(msg: string)

  class Machine {
    const id: string
    const name: string
    const conf: MachineConfig
    const img: Image
    const imgPath: string
    var addr: string
    var monAddr: string
    var conn: Option<Connection>

    /** NewMachine: a fresh ID from 32 random bytes; sockets unset, no connection yet. */
    constructor (random: Bytes, name: string, conf: MachineConfig, img: Image, imgPath: string)
      requires |random| == ID_BYTES
      ensures id == GenerateMachineID(random) && this.name == name && this.conf == conf
      ensures this.img == img && this.imgPath == imgPath
      ensures addr == "" && monAddr == "" && conn == None
    {
      id := GenerateMachineID(random);
      this.name := name;
      this.conf := conf;
      this.img := img;
      this.imgPath := imgPath;
      addr := "";
      monAddr := "";
      conn := None;
    }

    /**
     * Boots the machine: finds QEMU, resolves the two socket paths (recording each as
     * soon as it is known) and spawns QEMU. On success the spawned command is returned.
     */
    method Start(imdsPort: int, lookPath: string -> Result<string, string>,
                 runtimeFile: string -> Result<string, string>, spawnErr: Option<string>)
      returns (r: Result<Command, StartError>)
      modifies this`addr, this`monAddr
      ensures var bin := lookPath(QEMU_BINARY);
        var sock := runtimeFile(ConsoleSocketName(id));
        var mon := runtimeFile(MonitorSocketName(id));
        && (bin.Failure? ==> r == Failure(QemuNotFound(bin.error)) && addr == old(addr) && monAddr == old(monAddr))
        && (bin.Success? && sock.Failure? ==>
              r == Failure(SocketPathFailed(sock.error)) && addr == old(addr) && monAddr == old(monAddr))
        && (bin.Success? && sock.Success? ==> addr == sock.value)
        && (bin.Success? && sock.Success? && mon.Failure? ==>
              r == Failure(MonitorSocketPathFailed(mon.error)) && monAddr == old(monAddr))
        && (bin.Success? && sock.Success? && mon.Success? ==> monAddr == mon.value)
        && (bin.Success? && sock.Success? && mon.Success? && spawnErr.Some? ==> r == Failure(StartFailed(spawnErr.value)))
        && (bin.Success? && sock.Success? && mon.Success? && spawnErr.None? ==>
              r == Success(Command(bin.value, QemuArgs(imgPath, sock.value, mon.value, imdsPort, id, conf.ports))))
    {
      var bin := lookPath(QEMU_BINARY);
      if bin.Failure? {
        return Failure(QemuNotFound(bin.error));
      }
      var sock := runtimeFile(ConsoleSocketName(id));
      if sock.Failure? {
        return Failure(SocketPathFailed(sock.error));
      }
      addr := sock.value;
      var mon := runtimeFile(MonitorSocketName(id));
      if mon.Failure? {
        return Failure(MonitorSocketPathFailed(mon.error));
      }
      monAddr := mon.value;
      var args := QemuArgs(imgPath, addr, monAddr, imdsPort, id, conf.ports);
      if spawnErr.Some? {
        return Failure(StartFailed(spawnErr.value));
      }
      return Success(Command(bin.value, args));
    }

    /**
     * Returns the cached console connection, or dials the console socket up to three
     * times and caches the first connection that succeeds. `dial(addr, k)` is the
     * outcome of attempt k; `attempts` is how many dials were made.
     */
    method OpenConn(dial: (string, nat) -> DialResult) returns (r: Result<Connection, string>, attempts: nat)
      modifies this`conn
      ensures old(conn).Some? ==> r == Success(old(conn).value) && attempts == 0 && conn == old(conn)
      ensures old(conn).None? ==>
        && 1 <= attempts <= DIAL_ATTEMPTS
        && (forall k :: 0 <= k < attempts - 1 ==> dial(addr, k).DialFailed?)
        && (r.Success? ==> dial(addr, attempts - 1) == Connected(r.value) && conn == Some(r.value))
        && (r.Failure? ==> attempts == DIAL_ATTEMPTS && dial(addr, attempts - 1).DialFailed? && conn == None)
    {
      if conn.Some? {
        return Success(conn.value), 0;
      }
      var i := 0;
      while i < DIAL_ATTEMPTS
        invariant 0 <= i <= DIAL_ATTEMPTS
        invariant forall k :: 0 <= k < i ==> dial(addr, k).DialFailed?
        invariant conn == None
      {
        var d := dial(addr, i);
        if d.Connected? {
          conn := Some(d.conn);
          return Success(d.conn), i + 1;
        }
        i := i + 1;
      }
      return Failure("failed to open connection"), DIAL_ATTEMPTS;
    }

    /** The console connection: opened on first use and reused afterwards. */
    method Conn(dial: (string, nat) -> DialResult) returns (r: Result<Connection, string>)
      modifies this`conn
      ensures old(conn).Some? ==> r == Success(old(conn).value) && conn == old(conn)
      ensures old(conn).None? ==>
        && (r.Success? <==> exists k :: 0 <= k < DIAL_ATTEMPTS && dial(addr, k).Connected?)
        && (r.Success? ==> conn == Some(r.value))
        && (r.Failure? ==> conn == None)
    {
      var attempts;
      r, attempts := OpenConn(dial);
    }
  }
}

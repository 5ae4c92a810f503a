/** The byte delta of one process and remote endpoint, as agent and monitor exchange it. */
module NetworkFlows {

  /** A remote address the way Go prints it: an IPv4-mapped IPv6 address prints as IPv4. */
  datatype RemoteIp = V4(octets: seq<nat>) | V6(octets: seq<nat>) | UnknownIp

  /** Timestamps are nanoseconds since the Unix epoch. */
  datatype Flow = Flow(
    timestamp: nat, pid: nat, process: string, group: string, user: string,
    protocol: string, remoteIp: RemoteIp, remotePort: nat, rx: nat, tx: nat)

  datatype Process = Process(pid: nat, name: string, user: string)

  datatype Direction = Rx | Tx

  /** What every stage of the pipeline preserves about a byte: who moved it, where to, and which way. */
  datatype Tag = Tag(pid: nat, protocol: string, remoteIp: RemoteIp, remotePort: nat, direction: Direction)

  /** The bytes of two counters that the tags in `sel` select. */
  function TaggedBytes(pid: nat, protocol: string, remoteIp: RemoteIp, remotePort: nat, rx: nat, tx: nat,
                       sel: Tag -> bool): nat {
    (if sel(Tag(pid, protocol, remoteIp, remotePort, Rx)) then rx else 0)
    + (if sel(Tag(pid, protocol, remoteIp, remotePort, Tx)) then tx else 0)
  }

  function BytesOf(f: Flow, sel: Tag -> bool): nat {
    TaggedBytes(f.pid, f.protocol, f.remoteIp, f.remotePort, f.rx, f.tx, sel)
  }

  function FlowBytes(flows: seq<Flow>, sel: Tag -> bool): nat {
    if flows == [] then 0
    else FlowBytes(flows[..|flows| - 1], sel) + BytesOf(flows[|flows| - 1], sel)
  }

  lemma {:induction false} FlowBytesAppend(a: seq<Flow>, b: seq<Flow>, sel: Tag -> bool)
    ensures FlowBytes(a + b, sel) == FlowBytes(a, sel) + FlowBytes(b, sel)
  {
    if b == [] {
      assert a + b == a;
    } else {
      var n := |b| - 1;
      assert (a + b)[..|a + b| - 1] == a + b[..n];
      FlowBytesAppend(a, b[..n], sel);
    }
  }

  function LowerChar(c: char): char {
    if 'A' <= c <= 'Z' then c - 'A' + 'a' else c
  }

  function Lower(s: string): string {
    seq(|s|, i requires 0 <= i < |s| => LowerChar(s[i]))
  }

  /** Related daemons are charged to one group; every other process is its own group. */
  function ProcessGroup(process: string): string {
    var name := Lower(process);
    if "ssh" <= name then "ssh"
    else if "system-maintenance" <= name then "system-maintenance"
    else if "docker" <= name || "containerd" <= name then "docker"
    else if "postgres" <= name then "postgresql"
    else if "mysql" <= name || "mariadb" <= name then "mysql"
    else name
  }
}

/** The three tables from policy names to kernel enum values, each beside its inverse. */
module BitTables {
  import opened Wrappers
  import opened Bits

  /** A table whose every value is a legal shift amount for a `u32`. */
  type BitTable = tb: string -> Option<nat> | forall n :: tb(n).Some? ==> tb(n).value < 32
    witness (n: string) => None

  /** `bpf()` command numbers; every number below 32 has a name. */
  function CommandToBit(name: string): (r: Option<nat>)
    ensures r.Some? ==> r.value < 32 && CommandName(r.value) == Some(name)
  {
    match name
    case "MAP_CREATE" => Some(0)
    case "MAP_LOOKUP_ELEM" => Some(1)
    case "MAP_UPDATE_ELEM" => Some(2)
    case "MAP_DELETE_ELEM" => Some(3)
    case "MAP_GET_NEXT_KEY" => Some(4)
    case "PROG_LOAD" => Some(5)
    case "OBJ_PIN" => Some(6)
    case "OBJ_GET" => Some(7)
    case "PROG_ATTACH" => Some(8)
    case "PROG_DETACH" => Some(9)
    case "PROG_TEST_RUN" => Some(10)
    case "PROG_GET_NEXT_ID" => Some(11)
    case "MAP_GET_NEXT_ID" => Some(12)
    case "PROG_GET_FD_BY_ID" => Some(13)
    case "MAP_GET_FD_BY_ID" => Some(14)
    case "OBJ_GET_INFO_BY_FD" => Some(15)
    case "PROG_QUERY" => Some(16)
    case "RAW_TRACEPOINT_OPEN" => Some(17)
    case "BTF_LOAD" => Some(18)
    case "BTF_GET_FD_BY_ID" => Some(19)
    case "TASK_FD_QUERY" => Some(20)
    case "MAP_LOOKUP_AND_DELETE_ELEM" => Some(21)
    case "MAP_FREEZE" => Some(22)
    case "BTF_GET_NEXT_ID" => Some(23)
    case "MAP_LOOKUP_BATCH" => Some(24)
    case "MAP_LOOKUP_AND_DELETE_BATCH" => Some(25)
    case "MAP_UPDATE_BATCH" => Some(26)
    case "MAP_DELETE_BATCH" => Some(27)
    case "LINK_CREATE" => Some(28)
    case "LINK_UPDATE" => Some(29)
    case "LINK_GET_FD_BY_ID" => Some(30)
    case "LINK_GET_NEXT_ID" => Some(31)
    case _ => None
  }

  /** The one name of each command bit. */
  function CommandName(bit: nat): Option<string> {
    match bit
    case 0 => Some("MAP_CREATE")
    case 1 => Some("MAP_LOOKUP_ELEM")
    case 2 => Some("MAP_UPDATE_ELEM")
    case 3 => Some("MAP_DELETE_ELEM")
    case 4 => Some("MAP_GET_NEXT_KEY")
    case 5 => Some("PROG_LOAD")
    case 6 => Some("OBJ_PIN")
    case 7 => Some("OBJ_GET")
    case 8 => Some("PROG_ATTACH")
    case 9 => Some("PROG_DETACH")
    case 10 => Some("PROG_TEST_RUN")
    case 11 => Some("PROG_GET_NEXT_ID")
    case 12 => Some("MAP_GET_NEXT_ID")
    case 13 => Some("PROG_GET_FD_BY_ID")
    case 14 => Some("MAP_GET_FD_BY_ID")
    case 15 => Some("OBJ_GET_INFO_BY_FD")
    case 16 => Some("PROG_QUERY")
    case 17 => Some("RAW_TRACEPOINT_OPEN")
    case 18 => Some("BTF_LOAD")
    case 19 => Some("BTF_GET_FD_BY_ID")
    case 20 => Some("TASK_FD_QUERY")
    case 21 => Some("MAP_LOOKUP_AND_DELETE_ELEM")
    case 22 => Some("MAP_FREEZE")
    case 23 => Some("BTF_GET_NEXT_ID")
    case 24 => Some("MAP_LOOKUP_BATCH")
    case 25 => Some("MAP_LOOKUP_AND_DELETE_BATCH")
    case 26 => Some("MAP_UPDATE_BATCH")
    case 27 => Some("MAP_DELETE_BATCH")
    case 28 => Some("LINK_CREATE")
    case 29 => Some("LINK_UPDATE")
    case 30 => Some("LINK_GET_FD_BY_ID")
    case 31 => Some("LINK_GET_NEXT_ID")
    case _ => None
  }

  /** Map type numbers 1 to 30. */
  function MapTypeToBit(name: string): (r: Option<nat>)
    ensures r.Some? ==> 1 <= r.value <= 30 && MapTypeName(r.value) == Some(name)
  {
    match name
    case "hash" => Some(1)
    case "array" => Some(2)
    case "prog_array" => Some(3)
    case "perf_event_array" => Some(4)
    case "percpu_hash" => Some(5)
    case "percpu_array" => Some(6)
    case "stack_trace" => Some(7)
    case "cgroup_array" => Some(8)
    case "lru_hash" => Some(9)
    case "lru_percpu_hash" => Some(10)
    case "lpm_trie" => Some(11)
    case "array_of_maps" => Some(12)
    case "hash_of_maps" => Some(13)
    case "devmap" => Some(14)
    case "sockmap" => Some(15)
    case "cpumap" => Some(16)
    case "xskmap" => Some(17)
    case "sockhash" => Some(18)
    case "cgroup_storage" => Some(19)
    case "reuseport_sockarray" => Some(20)
    case "percpu_cgroup_storage" => Some(21)
    case "queue" => Some(22)
    case "stack" => Some(23)
    case "sk_storage" => Some(24)
    case "devmap_hash" => Some(25)
    case "struct_ops" => Some(26)
    case "ringbuf" => Some(27)
    case "inode_storage" => Some(28)
    case "task_storage" => Some(29)
    case "bloom_filter" => Some(30)
    case _ => None
  }

  /** The one name of each map type bit. */
  function MapTypeName(bit: nat): Option<string> {
    match bit
    case 1 => Some("hash")
    case 2 => Some("array")
    case 3 => Some("prog_array")
    case 4 => Some("perf_event_array")
    case 5 => Some("percpu_hash")
    case 6 => Some("percpu_array")
    case 7 => Some("stack_trace")
    case 8 => Some("cgroup_array")
    case 9 => Some("lru_hash")
    case 10 => Some("lru_percpu_hash")
    case 11 => Some("lpm_trie")
    case 12 => Some("array_of_maps")
    case 13 => Some("hash_of_maps")
    case 14 => Some("devmap")
    case 15 => Some("sockmap")
    case 16 => Some("cpumap")
    case 17 => Some("xskmap")
    case 18 => Some("sockhash")
    case 19 => Some("cgroup_storage")
    case 20 => Some("reuseport_sockarray")
    case 21 => Some("percpu_cgroup_storage")
    case 22 => Some("queue")
    case 23 => Some("stack")
    case 24 => Some("sk_storage")
    case 25 => Some("devmap_hash")
    case 26 => Some("struct_ops")
    case 27 => Some("ringbuf")
    case 28 => Some("inode_storage")
    case 29 => Some("task_storage")
    case 30 => Some("bloom_filter")
    case _ => None
  }

  /** Program type numbers 1 to 30; several names may share one. */
  function ProgTypeToBit(name: string): (r: Option<nat>)
    ensures r.Some? ==> 1 <= r.value <= 30 && (r.value != 2 && r.value != 26 ==> ProgTypeName(r.value) == Some(name))
  {
    match name
    case "socket_filter" => Some(1)
    case "kprobe" => Some(2)
    case "kretprobe" => Some(2)
    case "sched_cls" => Some(3)
    case "sched_act" => Some(4)
    case "tracepoint" => Some(5)
    case "xdp" => Some(6)
    case "perf_event" => Some(7)
    case "cgroup_skb" => Some(8)
    case "cgroup_sock" => Some(9)
    case "lwt_in" => Some(10)
    case "lwt_out" => Some(11)
    case "lwt_xmit" => Some(12)
    case "sock_ops" => Some(13)
    case "sk_skb" => Some(14)
    case "cgroup_device" => Some(15)
    case "sk_msg" => Some(16)
    case "raw_tracepoint" => Some(17)
    case "cgroup_sock_addr" => Some(18)
    case "lwt_seg6local" => Some(19)
    case "lirc_mode2" => Some(20)
    case "sk_reuseport" => Some(21)
    case "flow_dissector" => Some(22)
    case "cgroup_sysctl" => Some(23)
    case "raw_tracepoint_writable" => Some(24)
    case "cgroup_sockopt" => Some(25)
    case "tracing" => Some(26)
    case "fentry" => Some(26)
    case "fexit" => Some(26)
    case "struct_ops" => Some(27)
    case "ext" => Some(28)
    case "lsm" => Some(29)
    case "sk_lookup" => Some(30)
    case "uprobe" => Some(2)
    case "uretprobe" => Some(2)
    case _ => None
  }

  /** The one name of each program type bit, except for the shared bits 2 and 26. */
  function ProgTypeName(bit: nat): Option<string> {
    match bit
    case 1 => Some("socket_filter")
    case 3 => Some("sched_cls")
    case 4 => Some("sched_act")
    case 5 => Some("tracepoint")
    case 6 => Some("xdp")
    case 7 => Some("perf_event")
    case 8 => Some("cgroup_skb")
    case 9 => Some("cgroup_sock")
    case 10 => Some("lwt_in")
    case 11 => Some("lwt_out")
    case 12 => Some("lwt_xmit")
    case 13 => Some("sock_ops")
    case 14 => Some("sk_skb")
    case 15 => Some("cgroup_device")
    case 16 => Some("sk_msg")
    case 17 => Some("raw_tracepoint")
    case 18 => Some("cgroup_sock_addr")
    case 19 => Some("lwt_seg6local")
    case 20 => Some("lirc_mode2")
    case 21 => Some("sk_reuseport")
    case 22 => Some("flow_dissector")
    case 23 => Some("cgroup_sysctl")
    case 24 => Some("raw_tracepoint_writable")
    case 25 => Some("cgroup_sockopt")
    case 27 => Some("struct_ops")
    case 28 => Some("ext")
    case 29 => Some("lsm")
    case 30 => Some("sk_lookup")
    case _ => None
  }

  /** Bits 2 and 26 do have several names. */
  lemma ProgTypeSharedBits()
    ensures ProgTypeToBit("kprobe") == ProgTypeToBit("kretprobe") == Some(2)
    ensures ProgTypeToBit("uprobe") == ProgTypeToBit("uretprobe") == Some(2)
    ensures ProgTypeToBit("tracing") == ProgTypeToBit("fentry") == ProgTypeToBit("fexit") == Some(26)
  {
  }

  lemma CommandTableOntoLow(bit: nat)
    requires bit < 21
    ensures CommandName(bit).Some? && CommandToBit(CommandName(bit).value) == Some(bit)
  {
  }

  lemma CommandTableOntoHigh(bit: nat)
    requires 21 <= bit < 32
    ensures CommandName(bit).Some? && CommandToBit(CommandName(bit).value) == Some(bit)
  {
  }

  /** With the contract of `CommandToBit`: a bijection between 32 names and 0..31. */
  lemma CommandTableOnto(bit: nat)
    requires bit < 32
    ensures CommandName(bit).Some? && CommandToBit(CommandName(bit).value) == Some(bit)
  {
    if bit < 21 { CommandTableOntoLow(bit); } else { CommandTableOntoHigh(bit); }
  }

  /** Every program type number has a name that maps to it, with the shared numbers below. */
  lemma ProgTypeTableOnto(bit: nat)
    requires 1 <= bit <= 30 && bit != 2 && bit != 26
    ensures ProgTypeName(bit).Some? && ProgTypeToBit(ProgTypeName(bit).value) == Some(bit)
  {
  }

  lemma MapTypeTableOnto(bit: nat)
    requires 1 <= bit <= 30
    ensures MapTypeName(bit).Some? && MapTypeToBit(MapTypeName(bit).value) == Some(bit)
  {
  }

  // ---- The tables against the constants shared with the kernel side

  lemma CommandConstants0()
    ensures CommandToBit("MAP_CREATE") == Some(0)
    ensures CommandToBit("MAP_LOOKUP_ELEM") == Some(1)
    ensures CommandToBit("MAP_UPDATE_ELEM") == Some(2)
    ensures CommandToBit("MAP_DELETE_ELEM") == Some(3)
    ensures CommandToBit("MAP_GET_NEXT_KEY") == Some(4)
    ensures CommandToBit("PROG_LOAD") == Some(5)
    ensures CommandToBit("OBJ_PIN") == Some(6)
    ensures CommandToBit("OBJ_GET") == Some(7)
  {
  }

  lemma CommandConstants1()
    ensures CommandToBit("PROG_ATTACH") == Some(8)
    ensures CommandToBit("PROG_DETACH") == Some(9)
    ensures CommandToBit("PROG_TEST_RUN") == Some(10)
    ensures CommandToBit("OBJ_GET_INFO_BY_FD") == Some(15)
    ensures CommandToBit("BTF_LOAD") == Some(18)
    ensures CommandToBit("LINK_CREATE") == Some(28)
    ensures CommandToBit("LINK_UPDATE") == Some(29)
  {
  }

  lemma ProgTypeConstants0()
    ensures ProgTypeToBit("socket_filter") == Some(1)
    ensures ProgTypeToBit("kprobe") == Some(2)
    ensures ProgTypeToBit("sched_cls") == Some(3)
    ensures ProgTypeToBit("sched_act") == Some(4)
    ensures ProgTypeToBit("tracepoint") == Some(5)
    ensures ProgTypeToBit("xdp") == Some(6)
    ensures ProgTypeToBit("perf_event") == Some(7)
  {
  }

  lemma ProgTypeConstants1()
    ensures ProgTypeToBit("cgroup_skb") == Some(8)
    ensures ProgTypeToBit("cgroup_sock") == Some(9)
    ensures ProgTypeToBit("lwt_in") == Some(10)
    ensures ProgTypeToBit("lwt_out") == Some(11)
    ensures ProgTypeToBit("lwt_xmit") == Some(12)
    ensures ProgTypeToBit("sock_ops") == Some(13)
    ensures ProgTypeToBit("sk_skb") == Some(14)
  {
  }

  lemma ProgTypeConstants2()
    ensures ProgTypeToBit("cgroup_device") == Some(15)
    ensures ProgTypeToBit("sk_msg") == Some(16)
    ensures ProgTypeToBit("raw_tracepoint") == Some(17)
    ensures ProgTypeToBit("cgroup_sock_addr") == Some(18)
    ensures ProgTypeToBit("lwt_seg6local") == Some(19)
    ensures ProgTypeToBit("sk_reuseport") == Some(21)
    ensures ProgTypeToBit("flow_dissector") == Some(22)
  {
  }

  lemma ProgTypeConstants3()
    ensures ProgTypeToBit("tracing") == Some(26)
    ensures ProgTypeToBit("struct_ops") == Some(27)
    ensures ProgTypeToBit("ext") == Some(28)
    ensures ProgTypeToBit("lsm") == Some(29)
    ensures ProgTypeToBit("sk_lookup") == Some(30)
  {
  }

  lemma MapTypeConstants0()
    ensures MapTypeToBit("hash") == Some(1)
    ensures MapTypeToBit("array") == Some(2)
    ensures MapTypeToBit("prog_array") == Some(3)
    ensures MapTypeToBit("perf_event_array") == Some(4)
    ensures MapTypeToBit("percpu_hash") == Some(5)
    ensures MapTypeToBit("percpu_array") == Some(6)
    ensures MapTypeToBit("stack_trace") == Some(7)
    ensures MapTypeToBit("cgroup_array") == Some(8)
    ensures MapTypeToBit("lru_hash") == Some(9)
    ensures MapTypeToBit("lru_percpu_hash") == Some(10)
  {
  }

  lemma MapTypeConstants1()
    ensures MapTypeToBit("lpm_trie") == Some(11)
    ensures MapTypeToBit("array_of_maps") == Some(12)
    ensures MapTypeToBit("hash_of_maps") == Some(13)
    ensures MapTypeToBit("devmap") == Some(14)
    ensures MapTypeToBit("sockmap") == Some(15)
    ensures MapTypeToBit("cpumap") == Some(16)
    ensures MapTypeToBit("xskmap") == Some(17)
    ensures MapTypeToBit("sockhash") == Some(18)
    ensures MapTypeToBit("ringbuf") == Some(27)
  {
  }
}

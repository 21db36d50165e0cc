/** Messages between proxy clients and the daemon. */
module Protocol {
  import opened Wrappers
  import opened Bits

  type Byte = bv8
  type RawFd = int

  /** Names that the policy reads are strings; the map name, which only the kernel
      reads, is kept as the UTF-8 bytes that `create_bpf_map` copies. */
  datatype Request =
    | LoadProgram(progType: string, objectPath: string, programName: string)
    | CreateMap(mapType: string, name: seq<Byte>, keySize: u32, valueSize: u32, maxEntries: u32)
    | Attach(attachType: string, progFd: RawFd, target: string)

  datatype DenyReason = NoRole | RoleForbids(role: string, request: Request)

  datatype ExecError = NotImplemented | UnsupportedMapType(mapType: string) | BpfFailed(ret: int)

  datatype Response =
    | Success(fd: Option<RawFd>)
    | Denied(reason: DenyReason)
    | Error(message: ExecError)
}

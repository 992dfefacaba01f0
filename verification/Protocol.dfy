/** The messages a CLI and a daemon exchange, and the three predicates by
    which an agent in the middle decides whom to read from next. */
module Protocol {
  import opened Wrappers

  type byte = x: int | 0 <= x < 256
  type Bytes = seq<byte>

  /** Digests are opaque values: equal digests mean equal contents. */
  type Digest = Bytes

  datatype FileEntry = FileEntry(path: string, hash: Digest)

  datatype BuildRequest = BuildRequest(cargoArgs: seq<string>, subdir: Option<string>, team: string, scope: string)

  datatype SpeculativeSync = SpeculativeSync(manifest: seq<FileEntry>, files: seq<(string, Bytes)>)

  datatype Message =
    | Manifest(team: string, scope: string, entries: seq<FileEntry>)
    | NeedFiles(paths: seq<string>)
    | FileData(path: string, contents: Bytes)
    | SyncDone
    | SyncAck
    | BuildStdout(data: Bytes)
    | BuildStderr(data: Bytes)
    | BuildFinished(exitCode: byte)
    | SlotsBusy
    | Probe(fingerprint: Digest, request: BuildRequest, speculative: Option<SpeculativeSync>)
    | ProbeAccepted
    | ProbeMiss
    | TipRequest
    | Tip(text: string)
    | Executable(name: string, contents: Bytes)
  {
    /** The client has finished its half of the exchange. */
    predicate EndsClientTurn() {
      Probe? || Manifest? || SyncDone? || TipRequest?
    }

    /** The daemon asks for something and then waits. */
    predicate YieldsToClient() {
      ProbeMiss? || NeedFiles?
    }

    /** The daemon has said its last word of this session. */
    predicate EndsSession() {
      BuildFinished? || SlotsBusy? || Tip?
    }
  }
}

/** The daemon's half of a sync as it runs: loops that read a stream and change
    the files of a workspace in place. */
module SyncDaemon {
  import opened Protocol
  import opened Streams
  import opened Sync

  class Workspace {
    var files: Tree

    constructor (initial: Tree)
      ensures files == initial
    {
      files := initial;
    }

    method WriteBundledFiles(bundled: seq<(string, Bytes)>)
      modifies this
      ensures files == ApplyOps(old(files), Puts(bundled))
    {
      var i := 0;
      while i < |bundled|
        invariant 0 <= i <= |bundled|
        invariant ApplyOps(files, Puts(bundled)[i..]) == ApplyOps(old(files), Puts(bundled))
      {
        files := files[bundled[i].0 := bundled[i].1];
        i := i + 1;
        assert Puts(bundled)[i - 1..][1..] == Puts(bundled)[i..];
      }
    }

    /** Visits the local paths in whatever order the map yields them. */
    method DeleteStale(local: map<string, Digest>, client: seq<FileEntry>)
      modifies this
      ensures files == old(files) - StalePaths(client, local)
    {
      var clientPaths := set f <- client :: f.path;
      var todo := local.Keys;
      while todo != {}
        invariant todo <= local.Keys
        invariant files == old(files) - (StalePaths(client, local) - todo)
        decreases |todo|
      {
        var path :| path in todo;
        todo := todo - {path};
        if path !in clientPaths {
          files := files - {path};
        }
      }
    }

    method ReceiveFiles(stream: Stream) returns (outcome: Outcome)
      modifies this, stream
      ensures var r := Sync.ReceiveFiles(old(files), old(stream.inbox));
              files == r.tree && stream.inbox == r.rest && outcome == r.outcome && stream.sent == old(stream.sent)
    {
      while true
        invariant Sync.ReceiveFiles(files, stream.inbox) == Sync.ReceiveFiles(old(files), old(stream.inbox))
        invariant stream.sent == old(stream.sent)
        decreases |stream.inbox|
      {
        var m := stream.Recv();
        match m {
          case None => return ClientClosed;
          case Some(FileData(path, contents)) => files := files[path := contents];
          case Some(SyncDone) => return Synced;
          case Some(_) => return UnexpectedMessage;
        }
      }
    }

    method Fetch(stream: Stream, needed: seq<string>) returns (outcome: Outcome)
      modifies this, stream
      ensures var r := Sync.Fetch(old(files), old(stream.inbox), needed);
              files == r.tree && stream.inbox == r.rest && outcome == r.outcome && stream.sent == old(stream.sent) + r.sent
    {
      stream.Send(NeedFiles(needed));
      outcome := ReceiveFiles(stream);
      if outcome.Synced? { stream.Send(SyncAck); }
    }

    method SpeculativeSync(stream: Stream, spec: Protocol.SpeculativeSync, hash: Bytes -> Digest) returns (outcome: Outcome)
      modifies this, stream
      ensures var r := Sync.SpeculativeSync(old(files), old(stream.inbox), spec, hash);
              files == r.tree && stream.inbox == r.rest && outcome == r.outcome && stream.sent == old(stream.sent) + r.sent
    {
      WriteBundledFiles(spec.files);
      var local := LocalManifest(files, hash);
      var needed := NeededFiles(spec.manifest, local);
      DeleteStale(local, spec.manifest);
      if needed == [] {
        stream.Send(SyncAck);
        outcome := Synced;
      } else {
        outcome := Fetch(stream, needed);
      }
    }

    method LegacySync(stream: Stream, hash: Bytes -> Digest) returns (outcome: Outcome)
      modifies this, stream
      ensures var r := Sync.LegacySync(old(files), old(stream.inbox), hash);
              files == r.tree && stream.inbox == r.rest && outcome == r.outcome && stream.sent == old(stream.sent) + r.sent
    {
      stream.Send(ProbeMiss);
      var m := stream.Recv();
      match m {
        case None => return ClientClosed;
        case Some(Manifest(_, _, client)) =>
          var local := LocalManifest(files, hash);
          var needed := NeededFiles(client, local);
          DeleteStale(local, client);
          outcome := Fetch(stream, needed);
        case Some(_) => return UnexpectedMessage;
      }
    }
  }
}

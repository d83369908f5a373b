/** Artifact records (packages/dkrypt/src/artifacts.ts). */
module Artifacts {
  import opened Wrappers

  /** A flag of a record: since when it is set, and the revision of its last change. */
  datatype Flag = Flag(at: Option<int>, revision: Option<int>)

  datatype FlagKind = Pin | Archive

  datatype Artifact = Artifact(id: string, key: string, path: string, size: nat, createdAt: int, lastAccessedAt: int,
                               pin: Flag, archive: Flag)

  function ArtifactId(a: Artifact): string { a.id }

  function ArtifactKey(a: Artifact): string { a.key }

  function FlagOf(a: Artifact, kind: FlagKind): Flag {
    if kind.Pin? then a.pin else a.archive
  }

  function WithFlag(a: Artifact, kind: FlagKind, flag: Flag): Artifact {
    if kind.Pin? then a.(pin := flag) else a.(archive := flag)
  }

  function Bytes(s: seq<Artifact>): nat {
    if s == [] then 0 else Bytes(s[..|s| - 1]) + s[|s| - 1].size
  }
}

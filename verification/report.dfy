/** Names, and everything the reader can report, each as a tagged value. */
module Report {

  /** A UTF-16 code unit. Names and paths are sequences of them. */
  type Unit = x: int | 0 <= x < 0x1_0000
  type Name = seq<Unit>

  const SLASH: Unit := 0x2F
  const DOT: Name := [0x2E]
  const DOTDOT: Name := [0x2E, 0x2E]
  const ROOT: Name := [SLASH]

  function Join(dir: Name, name: Name): Name {
    dir + [SLASH] + name
  }

  /** What breaks a chain. */
  datatype Fault =
    | Outside(cluster: nat)
    | LoopsBackTo(cluster: nat)
    | IntoFree(after: nat)
    | IntoBad(after: nat)

  datatype Problem =
    // A boot sector that is refused.
    | NoSignature
    | SectorSize(bytes: nat)
    | ClusterSize(sectors: nat)
    | NoFatSize
    | Fat12(clusters: int)
    | Fat16Fields
    | FatTooSmall(sectors: nat)
    // What ends the reader, or what writes through it.
    | NothingFree
    | PastTheEnd(lba: nat, count: nat)
    | BrokenRead(fault: Fault)
    | IsADirectory(path: Name)
    | NotFound(path: Name)
    // The volume as a whole.
    | CopyDiffers(copy: nat)
    | MediaByte
    | Version(version: nat)
    | MirroringOff
    | RootOutside(cluster: nat)
    | FsInfoSignatures
    | FsInfoCount(said: nat, are: nat)
    | FsInfoHint(hint: nat)
    | Leaked(leaks: seq<nat>)
    // A directory's entries.
    | PartOutOfOrder(dir: Name)
    | PartsMissing(dir: Name, name: Name)
    | ChecksumWrong(dir: Name, name: Name)
    | HighHalf(dir: Name, name: Name, half: nat)
    // The walk.
    | TooDeep(path: Name)
    | DotWrong(path: Name, points: nat, own: nat)
    | DotDotWrong(path: Name, points: nat, parent: nat)
    | DotsMissing(path: Name)
    | SecondOfName(path: Name)
    | DirectorySize(path: Name, size: nat)
    | DirectoryNoCluster(path: Name)
    | EmptyHolds(path: Name, cluster: nat)
    | BytesNoCluster(path: Name, size: nat)
    | Broken(path: Name, fault: Fault)
    | CrossLinked(path: Name, cluster: nat, other: Name)
    | SizeMismatch(path: Name, size: nat, want: nat, has: nat)
}

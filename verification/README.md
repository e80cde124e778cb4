# The FAT oracle and its clients, in Dafny

`tools/fat16_read.py` is a reader and checker of FAT16 and FAT32 volumes, written from Microsoft's *FAT32 File
System Specification* 1.03 ("FAT Type Determination", "FAT Long Directory Entries"). Other programs stand on it:
`droplet/compare_volume.py` says whether a volume holds a copy of a tree, `droplet/extract_volume.py` writes a
volume out as a tree and has the comparison judge it, and `probe/judge_gopher.py` damages a volume in exactly one
way to see that the check finds it. This project models these programs and proves what they promise. Four smaller
programs with state of their own are modelled beside them: the sparse copy of `droplet/build_volume.py`, the
one-shot breakpoints of `tools/linecov.py`, the verdicts of `tools/verdicts.py` and the manifest check of
`droplet/check_backup.py`.

`dafny verify dfyconfig.toml` checks all of it.

## How it is built

A volume is its bytes, the place where it begins, and what the boot sector says (`Geometries.Disk`). A FAT copy
read as a table of numbers is a `Chains.Table`. What the code does step by step is a method with loops, proved
against a function that says what it answers; what the code promises is proved about those functions.

| files | what is in them |
|---|---|
| `report`, `bytes`, `seqs`, `results` | names, problems as tagged values, little-endian fields, sequences |
| `geometry`, `boot_sector`, `chains` | the boot sector, its regions, and which bytes are one; FAT chains |
| `dos_time`, `directory`, `short_names`, `long_names`, `sample_names` | dates; 32-byte entries, 8.3 names and their checksum, the long-name state machine, and a directory byte by byte |
| `walk`, `ownership`, `check`, `volume` | the walk, who holds each cluster, the check, and the `Volume` class that does all this |
| `heads`, `walk_reports` | what the check says of a volume's own fields, and the walk of an entry that is wrong |
| `partition`, `paths`, `shape`, `contents` | what a clean check and a clean walk mean: clusters, paths, a tree, bytes |
| `fat_writes`, `sector_writes`, `rewrites`, `same_walk`, `same_table` | writing FAT entries and reserved sectors, and what that leaves as it was |
| `healthy`, `sample_layout`, `sample`, `sample32`, `sample_dir` | volumes that check clean: any freshly made one, one with a directory in a directory, and FAT16 and FAT32 volumes byte by byte |
| `leak`, `damage`, `damage_found`, `damage_head` | a leaked cluster; loops, free clusters, short chains, cross-links |
| `damage_links`, `damage_decides`, `damage_dirs` | what one changed entry may say if the check stays clean: the FAT alone, files' chains, directories' chains |
| `field_damage` | FSInfo, mirroring, version, root cluster and media byte written otherwise |
| `tree`, `extract`, `name_order`, `compare` | a host's tree, `extract`, the order of names, `compare`, `judged` |
| `second_reader` | the independent chain reader of `probe/judge_replace.py` |
| `sparse_copy`, `linecov`, `verdicts`, `backup` | the four programs beside |

The walk falls in two parts. Which entries it comes to depends on the volume alone: `Walks.Visit` gives it as a
list of actions (an entry dated, an item listed, a chain claimed, a problem noted). What the actions do to the
owners, the listing and the problems is `Walks.Replay`, a fold over that list. `Volumes.Volume.Visit` does both at
once, as the source does, and is proved to.

## What is assumed

- A boot sector counts at least one FAT (`Mounted`). With none, `Volume.__init__` succeeds and the first question
  about the FAT fails on an empty list.
- Where reading back is promised, the image holds every sector that the boot sector counts (`HoldsAll`).
  Elsewhere a short image is modelled: reading past its end is a problem like any other.
- Where paths are compared with a host's, no name is empty or holds a slash (`PlainName`), and case folding goes
  name by name (`FoldsByName`); folding itself is a parameter.
- SHA-256 is a parameter, injective where a theorem says so, and its hexadecimal text holds no space or newline.
- For the leak, the boot sector counts itself as reserved, and on FAT32 FSInfo and the copy behind the backup boot
  sector are reserved sectors too (`FsInfoReserved`): a volume whose FAT lies over its boot sector or its FSInfo is
  changed in more ways than one. The theorems on damages ask for one reserved sector for the same reason, and those
  on FSInfo's fields that its sector is a reserved one behind the boot sector.
- A traced program does not write its own text; nothing but `record` writes verdicts.

## What differs from what the documentation says, or is worth knowing

- A long name's parts that another marked part, a deleted entry or the directory's end cuts off are dropped without
  a report (`LongNames.DroppedSilently` gives such directories). `LongNames.AbandonedExact` says exactly which
  abandoned runs are reported, `LongNames.PartExact` which parts are out of order, and `LongNames.LongNameExact` what
  is reported of a short entry's long name.
- FAT32's reserved bits are no part of an entry's value, but copies are compared byte for byte: copies that differ in
  these bits alone are reported, and changing the bits in every copy may end that (`SameTables.ReservedBitsSeen`;
  `SampleVolume32.Sample32Seen` is one such volume). `SameTables.ReservedBitsInvisible` has the exact condition.
- Not every damage to a directory's own chain is found. Pointed at the first cluster of a file below that directory
  whose bytes look like a directory's, it may leave the volume clean (`SampleDirectory.NotSeenBelow` is one such
  volume); every other change of such a chain is found (`DamageDirs.DirectoryDecides`).
- The check of a volume does not need the walk to be a tree to end: a directory that holds its own ancestor is
  entered again, its clusters are reported as cross-linked, and the depth of 64 ends it.
- `extract` refuses what the walk reports. Copies of the FAT that differ, or FSInfo that is wrong, are found by the
  whole check only, and are warnings like a leak.
- `judged` counts a leak as a difference, because `compare` includes the check: `Comparison.JudgedExtract` says
  that the differences of an extraction are exactly what the check finds. Directories' times are not compared.
- A manifest without its last newline is accepted as well (`Backups.TextExact`); members of a tar that are not
  files are not looked at.
- `record` compares the ids at a run's start with those at its end. An edit made and undone in between is not seen
  (`Verdicts.EditUndone`): a verdict stands for code that was the same at both ends of its run, and
  `Verdicts.KeptExact` says exactly when one is kept.
- `probe/judge_replace.py`'s reader stops at a free entry as at an end mark, takes the bad mark for a cluster, and
  knows no last cluster: `SecondReader.ReadersAgree` says exactly where the two readers agree.

## Model

| member | source | states |
|---|---|---|
| Geometries.LayoutAccepted | tools/fat16_read.py:84-118 | a boot sector that is not refused gives a power of two of sectors a cluster, as many clusters as whole ones fit between the data's start and the volume's end, and a FAT with an entry for each of them |
| Geometries.OpenAccepted | tools/fat16_read.py:80-122 | every opened volume has an accepted geometry and its FAT copies are read whole, each from its own place |
| BootSectors.LayoutExact | tools/fat16_read.py:86-118 | a boot sector is accepted with a layout if and only if its bytes say that layout, each field at its offset, as many clusters as whole ones fit, FAT32 from 65525 clusters on and then with neither a FAT16 root nor a FAT16 size, and a FAT that holds them all |
| BootSectors.LayoutRefuses | tools/fat16_read.py:90-118 | every other is refused for the first thing wrong: sector size, cluster size, no FAT size, fewer than 4085 clusters, FAT16 fields on FAT32, a FAT too small |
| BootSectors.OpenExact | tools/fat16_read.py:80-129 | a volume opens with a layout and copies if and only if its first 512 bytes end in 55 AA and say that layout, and the copies are the image's bytes where that has them |
| BootSectors.NotMarked | tools/fat16_read.py:83-85 | too few bytes, or none of 55 AA at their end, are refused as no boot sector |
| BootSectors.OpenEnds | tools/fat16_read.py:122-129 | an image too short for its FATs is refused at the first copy that is not all there, with that copy's sectors |
| BootSectors.EntryExact | tools/fat16_read.py:131-136 | a cluster's entry is two bytes of the image at its place in the first FAT copy, or four without their highest four bits |
| BootSectors.MarksExact | tools/fat16_read.py:138-161 | the volume's clusters, and what an entry's value says: 0 is free, 0xFFF7 or 0x0FFFFFF7 bad, from 0xFFF8 or 0x0FFFFFF8 on an end |
| BootSectors.ChainReads | tools/fat16_read.py:144-162 | the follower answers a chain if and only if it begins at the first cluster, stays on the volume, each cluster's entry is the next and no mark, and the last one's an end mark, all in literals |
| Geometries.RegionsSound | tools/fat16_read.py:98-142 | FAT copies, root and clusters follow one another inside the volume; distinct copies and distinct clusters never overlap; the boot sector is outside the FATs if and only if a sector is reserved |
| Geometries.EntriesSound | tools/fat16_read.py:117-136 | each cluster's entry lies inside every copy, and distinct entries never overlap |
| Chains.ChainExact | tools/fat16_read.py:144-162 | the follower answers a chain if and only if that is a finite path of linked clusters of the volume from the first to an end mark |
| Chains.ChainNoDup | tools/fat16_read.py:148-152 | a path that reaches an end mark visits no cluster twice, so refusing repeats refuses no chain |
| Chains.ChainBound | tools/fat16_read.py:144-162 | an answered chain begins at its first cluster, repeats none, is no longer than there are clusters, and each of them is in use |
| Chains.SharedTail | tools/fat16_read.py:144-162 | two chains that share a cluster share their whole tails |
| Chains.FollowThrough | tools/fat16_read.py:148-162 | where a linked stretch ends decides the answer: the chain, or which of the four faults, and at which cluster |
| DosTimes.DosTimeIncreases | tools/fat16_read.py:357-371 | packed fields, date before time, order valid entries exactly as their seconds do |
| DosTimes.DosTimeOnto | tools/fat16_read.py:357-371 | every even second from the first date to the last is the time of exactly one pair of fields |
| DosTimes.DosTimeInto | tools/fat16_read.py:357-371 | every decoded time is an even second between the first date and the last, and packing it gives the fields back |
| DosTimes.Fields | droplet/check_volume_tree.py:52-53 | each even second from the first date to the last has fields that decode to it (2100 is no leap year) |
| DosTimes.KeptWithinSlack | droplet/compare_volume.py:43-45 | any whole second of that range, rounded down to FAT's step, stored and decoded, is within two seconds |
| DosTimes.DosTimeValid | tools/fat16_read.py:357-369 | bit fields are a time if and only if the month is one, the day one of that month's, and hour, minute and second those of a day; the twelve lengths and the rule of leap years are written out |
| DosTimes.KnownTimes | tools/fat16_read.py:357-371 | fields written out and their seconds: both ends of the range, a leap day, the ends of a long and a short month, the day after 2100's February; and four that are no time |
| LongNames.RunHolds | tools/fat16_read.py:183-200 | at every entry the machine holds exactly the parts of the falling run directly before it, or nothing |
| LongNames.FallingIsHeld | tools/fat16_read.py:183-200 | no other run ends at an entry than the one the machine holds |
| LongNames.LongNameExact | tools/fat16_read.py:204-216 | a short entry has a long name if and only if parts n..1 stand directly before it in order, the first alone marked 0x40, all with its checksum; otherwise it has its 8.3 name, and a flaw of its long name is reported exactly if a marked run stands directly before it |
| LongNames.PartExact | tools/fat16_read.py:183-200 | a part is reported as out of order if and only if no run of parts, in order and the first marked, ends with it |
| LongNames.AbandonedExact | tools/fat16_read.py:183-219 | a run of parts that the next entry neither continues nor has for its long name is reported if and only if that entry is a short one or an unmarked part; at any other entry nothing is reported at all |
| LongNames.DroppedSilently | tools/fat16_read.py:183-204 | three directories, byte by byte, whose one part is dropped without a report: by the end, by a deleted entry, and by another marked part |
| LongNames.LongNameRoundTrip | tools/fat16_read.py:179-219 | a name laid out as the specification has it reads back as itself, unreported, whatever stands before it |
| LongNames.NameRoundTrip | droplet/check_volume_tree.py:148-156 | a name laid out takes exactly `slots` entries, and a directory that goes on with them yields, after what it yielded before, just one entry of that name with the short entry's fields; nothing is reported about it but, on FAT16, a high half of its cluster that is not zero |
| LongNames.SlotsExact | droplet/check_volume_tree.py:148-156 | a name takes one entry if and only if it is one to eight of the characters of 8.3 names, and then nothing or a dot and one to three; otherwise one more for every thirteen characters begun |
| LongNames.ShortCharIs | droplet/check_volume_tree.py:150 | the characters of 8.3 names, written out |
| Volumes.LfnChecksum | tools/fat16_read.py:389-393 | the loop gives the specification's checksum of the short name, which the next two rows pin |
| ShortNames.ChecksumStep | tools/fat16_read.py:389-393 | a step of the checksum as bit operations on eight bits: the sum rotated right by one, and the byte added |
| ShortNames.KnownSum | tools/fat16_read.py:389-393 | README~1.TXT, byte by byte, has the checksum 107 |
| ShortNames.ShortNameExact | tools/fat16_read.py:374-386 | an 8.3 name reads as its base, and a dot and the extension if there is one, spaces cut off; case bit 0x08 lowers the base, 0x10 the extension; a first byte 05 reads as E5 |
| ShortNames.PartUnits | tools/fat16_read.py:198-199 | a part's thirteen characters and the bytes of the entry they are in |
| ShortNames.ViewExact | tools/fat16_read.py:183-203 | which entries are parts, which are files and directories, and the fields of a part, by bytes and bits |
| SampleNames.ReadmeRead | tools/fat16_read.py:179-224 | two parts and a short entry, byte by byte with that checksum, read as the one entry of the long name, with its cluster, size and time; on FAT16 the high half of the cluster is reported and left out |
| SampleNames.ReadmeFlaws | tools/fat16_read.py:193-208 | the same without its first part, and without its last: out of order, and parts missing; the entry then has its 8.3 name |
| SampleNames.OtherSum | tools/fat16_read.py:209-210 | after a whole run of parts with the sum 106 the checksum is reported as wrong |
| Volumes.Volume.FreeClusters | tools/fat16_read.py:138-139 | counts the set of clusters whose entry is 0 |
| Volumes.Volume.Chain | tools/fat16_read.py:144-162 | the loop with its seen set ends on every FAT and answers what the follower of `ChainExact` answers |
| Volumes.Volume.Clusters | tools/fat16_read.py:141-142 | joins a chain's clusters in order, or answers the first that cannot be read |
| Volumes.Volume.RawEntriesOf | tools/fat16_read.py:166-177 | the 32-byte entries, up to the end mark, of FAT16's fixed root, FAT32's root chain or a directory's chain |
| Volumes.Volume.Entries | tools/fat16_read.py:179-224 | the entries and the reports of a directory in their order |
| Volumes.Volume.OneEntry | tools/fat16_read.py:183-224 | one turn of the long-name state (`parts`, `expect`, `checksum`) is one step of the machine of `LongNameExact`, with its entry and its reports |
| Volumes.Volume.DecodeAll | tools/fat16_read.py:179-224 | the whole loop is the machine run over all entries |
| Volumes.Volume.Own | tools/fat16_read.py:236-247 | claims a chain: clusters that were free become the path's, the others are reported with their holders |
| Volumes.Volume.OnEntry | tools/fat16_read.py:255-294 | what an entry adds to owners, times, listing and problems, and whether the visit goes into it |
| Volumes.Volume.OnDirectory | tools/fat16_read.py:271-280 | a directory's entry: its size, its cluster, its chain, its place in the listing |
| Volumes.Volume.OnFile | tools/fat16_read.py:281-294 | a file's entry: listed always, then its chain and the clusters its size needs |
| Volumes.Volume.OnDots | tools/fat16_read.py:256-265 | a directory's own two links point at itself and at its parent, or are reported |
| Volumes.Volume.Visit | tools/fat16_read.py:249-296 | the recursion ends on every image, directories that hold their ancestors included, and does exactly the actions of the visit in their order |
| Volumes.Volume.Walk | tools/fat16_read.py:228-303 | the walk's listing, owners, times and problems are the replay of its actions from nothing, after what was reported before |
| Volumes.Volume.HeadCheck | tools/fat16_read.py:306-313 | the copies, the media byte and FAT32's fields, in their order |
| Volumes.Volume.Fat32Check | tools/fat16_read.py:322-343 | version, mirroring, root cluster, FSInfo's signatures, count and hint |
| Volumes.Volume.Unowned | tools/fat16_read.py:315-316 | the clusters in use that no chain of the walk holds |
| Volumes.Volume.Check | tools/fat16_read.py:305-320 | the whole check is its head, the walk's problems and the leaks, and leaves the walk's times |
| Volumes.Volume.ContentOf | droplet/extract_volume.py:71-73 | a file's bytes: its chain's clusters joined and cut at its size, or what will not read |
| Volumes.Volume.Read | tools/fat16_read.py:345-354 | the first item of a path, whatever its case; a directory and a missing path are refused |
| Ownership.TakeExact | tools/fat16_read.py:242-247 | taking a chain reports exactly the clusters held before, each with its holder, and holds all the others; no owner is changed |
| Ownership.StepExact | tools/fat16_read.py:236-296 | an action reports nothing if and only if it is sound on its own account and claims nothing that is held |
| Ownership.ReplayExact | tools/fat16_read.py:228-303 | a walk adds no problem if and only if every action is sound and no cluster is claimed twice; it holds exactly what it claims and lists exactly what it comes to |
| Ownership.ReplayHead | tools/fat16_read.py:305-314 | what was reported before the walk changes nothing that the walk finds |
| Partition.WalkMatched | tools/fat16_read.py:266-301 | when nothing is reported, the chains claimed are just the listed items' and FAT32's root's, and every file's chain has exactly the clusters its size needs |
| Partition.UnreachedExact | tools/fat16_read.py:315-316 | the leaks are exactly the clusters in use without an owner, each once, in rising order |
| Partition.CleanExact | tools/fat16_read.py:305-320 | the check is clean if and only if the volume's own fields are, every action of the walk is sound, no cluster is claimed twice, and the clusters claimed are just those in use |
| Partition.CleanPartition | tools/fat16_read.py:228-320 | on a clean volume every cluster is exactly one of free, bad, or in exactly one chain; free, bad and the chains' lengths add up to the clusters; every file's chain fits its size |
| Heads.HeadExact | tools/fat16_read.py:305-343 | nothing is reported before the walk if and only if every copy is the first, the first entry has the media byte at offset 21, and on FAT32 the version is 0, bit 7 of the flags clear, the root cluster on the volume, and FSInfo's three signatures, count and hint are right, all by their bytes |
| Shapes.TreeClean | tools/fat16_read.py:228-320 | a volume whose own fields are right and which is a tree of at most 64 levels, given by its directories' entries with no walk, checks clean and lists that tree in order |
| Shapes.CleanIsTree | tools/fat16_read.py:228-343 | a volume checks clean if and only if its own fields are right and it is such a tree: right links in every directory, no two names alike but for their case, every file's chain of just the clusters its size needs, all chains apart and together the clusters in use |
| Shapes.LinksExact | tools/fat16_read.py:256-265 | when the walk reports nothing, every listed directory has both links, its `.` naming its own first cluster and its `..` that of the listed directory at its parent's path, or 0 below the root |
| WalkReports.FileReports | tools/fat16_read.py:281-294 | of a file in the root: what is listed, and exactly what is reported if it is empty with a cluster, has bytes and none, has a broken chain, or one that is too long or too short |
| WalkReports.FolderReports | tools/fat16_read.py:271-279 | of a directory in the root that cannot be entered: its size, its missing cluster or its broken chain are reported, and it is not listed |
| WalkReports.SecondReported | tools/fat16_read.py:268-270 | of two entries of a name, but for its case, the second is reported |
| WalkReports.LinksNoted | tools/fat16_read.py:256-265 | at any depth, each link that names another cluster than it must is reported with both |
| WalkReports.LinkMissing | tools/fat16_read.py:295-296 | a directory but the root that lacks one of its links is reported |
| WalkReports.DeepNoted | tools/fat16_read.py:250-252 | a directory more than 64 deep is reported and not read |
| HealthyVolumes.FreshClean | tools/fat16_read.py:305-320 | every freshly made FAT16 volume, of any size, checks clean with all its clusters free |
| HealthyVolumes.FreshClean32 | tools/fat16_read.py:305-343 | every freshly made FAT32 volume, of any size, checks clean: its root's one cluster in use, all others free, and FSInfo saying so or that it does not know |
| HealthyVolumes.TwoLevelsClean | tools/fat16_read.py:249-296 | a volume with a directory in a directory and a fitting file in that, each `..` naming the cluster of the directory it is in, or 0 below the root, and nothing else in use, checks clean and lists the three |
| SampleVolume.SampleHealthy | tools/fat16_read.py:565-578 | one volume given byte by byte is healthy, with two FAT copies, a file of three clusters, another file and free clusters: what the theorems on damage, leaks and extraction ask of a volume is met |
| SampleVolume32.Sample32Healthy | tools/fat16_read.py:305-343 | one FAT32 volume given byte by byte is healthy, its root a chain, FSInfo with the free count, a file of two clusters: what the FAT32 halves of the theorems ask is met |
| Paths.ListingDistinct | tools/fat16_read.py:253-270 | when the walk notes nothing, all listed paths differ, even with their case folded away |
| Paths.ListingRooted | tools/fat16_read.py:249-282 | and each item is in the root or in a directory listed before it |
| Paths.CleanWalkTree | tools/fat16_read.py:228-303 | a walk that reports nothing walked a tree: distinct folded paths, parents first, no two directories on one chain, none on FAT32's root, every chain fitting |
| Contents.StreamIsCut | droplet/compare_volume.py:97-106 | reading a cluster at a time with a count of what is left feeds the same bytes as joining the clusters and cutting them, for every size and cluster size |
| Contents.ContentExact | tools/fat16_read.py:345-354 | a listed file that fits reads as exactly its size in bytes, and both ways of reading agree |
| Contents.ContentByte | tools/fat16_read.py:141-142 | each byte of a file is the image's byte at its place: in the chain's cluster of its number, behind the reserved sectors, the FATs and the root |
| Contents.ReadExact | tools/fat16_read.py:345-354 | on a volume whose walk is clean, `read` of a listed file's path answers that file's own bytes, all of them |
| Contents.ReadDecides | tools/fat16_read.py:345-354 | whatever the walk reports: the first item of the path decides, whatever its case; a directory is refused, and a path that no item has |
| Contents.StripExact | tools/fat16_read.py:348 | the slashes at both ends of a path, and no others, are left out |
| FatWrites.RewrittenTable | tools/fat16_read.py:500-503 | an entry written in every copy changes that cluster's value in the table and no other |
| FatWrites.RewrittenMounts | tools/fat16_read.py:500-503 | the volume still opens, with the same geometry and with nothing outside its FATs changed |
| Rewrites.ChainElsewhere | tools/fat16_read.py:144-162 | changing an entry changes no chain that its cluster is not in |
| Leaks.Image.LeakACluster | probe/judge_gopher.py:487-513 | in place: the last free cluster marked as an end in every copy and FSInfo marked unknown in both places, or nothing changed if none is free or the volume does not open |
| Leaks.Image.Mark | probe/judge_gopher.py:503-510 | the loop over copies and the two FSInfo writes make exactly the bytes of the leak |
| Leaks.LastFree | probe/judge_gopher.py:501 | the greatest free cluster, or that there is none |
| Leaks.LeakMounts | probe/judge_gopher.py:503-510 | the leaked volume opens with the same geometry, the table changed at that cluster alone, the data as they were |
| Leaks.LeakWritten | probe/judge_gopher.py:503-510 | the bytes written: 0xFFFF or 0x0FFFFFFF in every copy, and on FAT32 the count and the hint 0xFFFFFFFF in FSInfo and in the sector behind the backup boot sector |
| Leaks.LeakWalk | probe/judge_gopher.py:487-513 | on a clean volume the walk over the leaked one is the same: listing, owners, times, problems |
| Leaks.LeakExact | probe/test_judges.py:619-640 | on every clean volume, FAT16 or FAT32, marking any free cluster in use is exactly one problem, the leak of that cluster; the walk is unchanged and the free count falls by one |
| Leaks.LeakReads | probe/judge_gopher.py:487-513 | every chain that could be followed and every file's bytes are as they were |
| Damages.ChainDamaged | tools/fat16_read.py:144-162 | any entry of a chain changed: the chain ends there at an end mark, and otherwise the value decides its fault: a free or bad mark, no cluster, one met before, a free or a bad cluster |
| Damages.ChainCrossed | tools/fat16_read.py:144-162 | any entry of a chain pointed into another chain: what is kept of the one runs on into the rest of the other |
| DamageFound.LoopFound | tools/fat16_read.py:518 | any entry of any file's chain pointed back into the chain: after what its own fields say, exactly the loop at the cluster pointed at is reported, and all the chain's clusters as leaked |
| DamageFound.FreeFound | tools/fat16_read.py:519 | any entry of a file's chain set to 0: after what the volume's own fields say, exactly the run into a free cluster after that one is reported, and the chain's other clusters as leaked |
| DamageFound.FreeClusterFound | tools/fat16_read.py:156-159 | any entry of a file's chain pointed at a free cluster: exactly the run into a free cluster after that one is reported, and all of the chain as leaked |
| DamageFound.BrokenFound | tools/fat16_read.py:144-162 | whatever value breaks a chain, at any of its entries: exactly the fault that `ChainDamaged` gives is reported, and as leaked exactly the chain's clusters that are still in use |
| DamageFound.ShortFound | tools/fat16_read.py:522 | a chain ended early: after what the volume's own fields say, exactly the size mismatch with both counts is reported, and the clusters cut off as leaked |
| DamageFound.CrossFound | tools/fat16_read.py:520 | any entry of a file's chain pointed anywhere into another file's, whichever of the two the walk meets first: after what the volume's own fields say, one cross-link for every shared cluster, in order, on the file met second; the size mismatch, unless the new length is the old; and as leaked exactly what the chain had after that entry |
| DamageHeads.DamagedHead | tools/fat16_read.py:305-343 | what the damaged volume's own fields say in these: nothing, or, where an entry was set to 0 on FAT32 and FSInfo gives a count, that this count is one too few |
| DamageDecides.DamageDecides | tools/fat16_read.py:144-320 | whatever 16- or 32-bit value is written into the entry of any cluster of any file of a clean volume, reserved bits and clusters of a directory or of FAT32's root included: the check is clean if and only if the entry reads as it did, or is the chain's last and still an end mark |
| DamageDecides.ReadDecides | tools/fat16_read.py:131-136 | on a clean volume, writing a value into any entry gives the same check, problem for problem, as writing what that value reads as |
| DamageDirs.DirectoryDecides | tools/fat16_read.py:228-320 | the same for any directory and for FAT32's root, for every value that does not name the first cluster of something below that directory: clean if and only if the entry reads as it did, or is the chain's last and still an end mark |
| DamageDirs.VisitPersists | tools/fat16_read.py:249-296 | when one directory's chain becomes another, all that the visit claimed outside that directory is claimed still |
| DamageDirs.VisitCut | tools/fat16_read.py:249-296 | when a directory's chain only ends earlier, the visit claims nothing that it did not claim before |
| DamageLinks.LinksDecide | tools/fat16_read.py:144-162 | two FATs, each with chains that hold every cluster in use just once, differ in one used entry only if that one now is an end mark, or a free or bad mark on a chain's first cluster, or names the first cluster of another chain |
| DamageLinks.HolderDecides | tools/fat16_read.py:236-247 | and if the changed chain is still claimed, so is the chain now named, and no cut-off rest is claimed anew, then only as the last cluster's end mark |
| SampleDirectory.NotSeenBelow | tools/fat16_read.py:228-320 | one volume given byte by byte, with a directory of two clusters: its first entry pointed at the first cluster of the file in it, the volume checks clean as before |
| DamageFound.FilesApart | tools/fat16_read.py:236-247 | two listed files of a clean volume share no cluster |
| SameTables.WalkEqual | tools/fat16_read.py:228-303 | the walk depends on the entries' values and on what lies outside the FATs, and on nothing else |
| SameTables.ReservedBitsInvisible | tools/fat16_read.py:131-136 | volumes whose entries read alike, whatever FAT32's top four bits hold, have the same table, walk and free count; the same check if and only if each later copy is like the first in both or in neither (or the check fails) |
| SameTables.ReservedBitsSet | tools/fat16_read.py:534-537 | writing an entry's own value with other reserved bits in every copy leaves the table, the walk and the free count as they were, and the check exactly under that condition; copies that were all alike meet it |
| SameTables.ReservedBitsOfAll | tools/fat16_read.py:534-537 | so does doing it to any entries, one after another, however many |
| SameTables.ReservedBitsSeen | tools/fat16_read.py:307-309 | the failing family: on any clean FAT32 volume with two copies, other reserved bits in one copy's entry are reported as a difference of that copy, and setting them in both ends the report, though every entry reads as it did |
| SampleVolume32.Sample32Seen | tools/fat16_read.py:307-309 | one such volume: cluster 4's entry is 0x0FFFFFFF in one copy and 0xFFFFFFFF in the other, and then 0xFFFFFFFF in both |
| SameTables.CopyFound | tools/fat16_read.py:523 | a change to one later copy is exactly one problem: that copy differs |
| FieldDamages.CountFound | tools/fat16_read.py:528-529 | on a clean FAT32 volume, whatever free count is written into FSInfo: exactly that count is reported, unless it is unknown or the right one |
| FieldDamages.HintFound | tools/fat16_read.py:341-342 | whatever hint is written: exactly it is reported, unless it is unknown or a cluster |
| FieldDamages.SignatureFound | tools/fat16_read.py:334-336 | whatever is written over any of the three signatures: exactly that is reported, unless it is the signature |
| FieldDamages.MirrorFound | tools/fat16_read.py:530 | whatever flags are written: exactly that mirroring is off is reported, if and only if bit 7 is set |
| FieldDamages.VersionFound | tools/fat16_read.py:531 | whatever version is written: exactly it is reported, unless it is 0 |
| FieldDamages.RootFound | tools/fat16_read.py:532-533 | whatever root cluster past the volume is written: exactly it, the root's chain that begins outside, and every cluster in use as leaked, in rising order |
| FieldDamages.MediaFound | tools/fat16_read.py:310-311 | on a clean volume of either kind, whatever media byte is written: exactly it is reported, unless it is the first entry's |
| SecondReader.Reader.Chain | probe/judge_replace.py:75-82 | the loop ends on every FAT, and answers the reader's chain, its loop, or the read past the image's end |
| SecondReader.ReadersAgree | probe/judge_replace.py:72-82 | the first reader accepts a chain if and only if the second gives it and it has a cluster, stays on the volume and ends in an end mark |
| SecondReader.SameVolume | probe/judge_replace.py:56-73 | on a bare FAT16 volume both read the same entry for every cluster |
| Trees.Tree.MakeFolder | droplet/extract_volume.py:66-75 | makes the folders that are missing on the way to a path, and changes nothing else but folders' times; fails, with nothing made, if and only if a file stands in the way; a single new folder moves the time of the one it is made in |
| Trees.BlockedExact | droplet/extract_volume.py:66-75 | a folder cannot be made if and only if the path, or the longest of its beginnings that is there, is a file |
| Trees.AboveExact | droplet/extract_volume.py:66-75 | what may be made on the way to a path is each of its beginnings by whole names, and the path |
| Trees.Tree.WriteFile | droplet/extract_volume.py:76-77 | a file written whole; making it moves its folder's time |
| Extraction.WriteItems | droplet/extract_volume.py:64-81 | the first loop leaves exactly the listing's items that can be read, each file with its bytes and time, and counts files, folders and what was skipped |
| Extraction.TimeFolders | droplet/extract_volume.py:82-87 | the second loop leaves every dated folder with the volume's time, and every file as it was |
| Extraction.DepthExact | droplet/extract_volume.py:83 | a path is as deep as it has names |
| Extraction.DeepestFirstExact | droplet/extract_volume.py:83 | folders are dated the deepest first, those of one depth in the listing's order |
| Extraction.CountsExact | droplet/extract_volume.py:64-81 | the counts are of the folders and of the files that can be read, and there is a warning for each other item |
| Extraction.SkippedExact | droplet/extract_volume.py:72-74 | the warnings are of just the files that cannot be read, each with why |
| Extraction.Extract | droplet/extract_volume.py:50-88 | a tree that is not empty and a volume whose walk reports anything are refused with nothing written; otherwise the tree is the volume, every file and folder with its time, and the check's problems are warnings |
| Comparison.IndexOf | droplet/compare_volume.py:56-58 | the listing as a dictionary, keys in the order they came first, the last item of a path kept |
| Comparison.KeysExact | droplet/compare_volume.py:56-58 | the keys are the dictionary's, each once, and every item's path is among them |
| Comparison.FoldIndex | droplet/compare_volume.py:59-61 | for every folded path, the keys that fold to it in their order |
| Comparison.StreamChain | droplet/compare_volume.py:99-106 | the loop with `left` feeds what `StreamIsCut` speaks of, or stops at the first cluster that cannot be read |
| Comparison.StreamFile | droplet/compare_volume.py:97-106 | no cluster is followed for an empty file; a broken chain is a finding |
| Comparison.OnBoth | droplet/compare_volume.py:84-116 | a file on both sides: size, then content, then time, each finding as the code reaches it |
| Comparison.OneNode | droplet/compare_volume.py:66-116 | a path of the tree: missing, there in another case, of another kind, or compared; and which of the volume's paths it accounts for |
| Comparison.OverTree | droplet/compare_volume.py:63-116 | the loop's findings and its `seen` set over the whole tree |
| Comparison.NotSeen | droplet/compare_volume.py:117-119 | an extra finding for each name not seen, in order |
| Comparison.Compare | droplet/compare_volume.py:48-120 | the check's findings, the tree's in order, then the extras; a volume that cannot be walked is an error |
| Comparison.StreamSame | droplet/compare_volume.py:97-106 | along a chain of just the clusters needed, both ways of reading meet the same clusters and fail at the same one |
| Comparison.NodeExact | droplet/compare_volume.py:66-116 | a path has no finding if and only if the volume has it as the tree does |
| Comparison.NodeReports | droplet/compare_volume.py:66-116 | everything that is found of a path of the tree, in its order and with its values: missing, the first of the volume's names that is alike but for its case, another kind, another size, not read, other bytes, no date, a date more than two seconds off |
| Comparison.TimeReports | droplet/compare_volume.py:111-116 | a file alike but for its date is reported for exactly that if it is more than 2.0 seconds off, and otherwise not at all |
| Comparison.ExtrasExact | droplet/compare_volume.py:117-119 | the extras are just the volume's paths that are none of the tree's, nor any of these but for its case where the volume lacks it, each once, in the order of names |
| Comparison.CompareReports | droplet/compare_volume.py:48-120 | everything `compare` finds: the check's problems, then each path's findings in the tree's order, then the extras |
| Comparison.KeptLast | droplet/compare_volume.py:56-58 | of several items of a path the last is kept |
| Comparison.KeysInOrder | droplet/compare_volume.py:56-58 | the dictionary's paths are in the order in which they came first |
| NameOrder.BeforeExact | droplet/compare_volume.py:117 | names are ordered as Python orders them, by code points, although they are held as UTF-16 |
| NameOrder.SortedRises | droplet/compare_volume.py:117 | different names come out sorted in that order |
| Comparison.CompareDecides | droplet/compare_volume.py:48-120 | nothing is found if and only if the volume checks clean, has the same paths letter for letter, the same kinds, the same bytes, and every file's date between -2.0 and 2.0 seconds off |
| Comparison.Judged | droplet/extract_volume.py:94-100 | splits the findings in differences and entries with no date |
| Comparison.JudgedExtract | droplet/extract_volume.py:50-100 | extracting and judging is a round trip: for every volume whose walk is clean the differences are exactly the check's problems (none, if it is clean), and the undated are exactly the files with no date, each once |
| SparseCopy.FirstFrom | droplet/build_volume.py:102-103 | SEEK_DATA and SEEK_HOLE: the first place of that kind from an offset on, or the end |
| SparseCopy.WriteOn | droplet/build_volume.py:117 | a block written where the copy stands keeps it the image as far as it goes, the gap before it being zeros |
| SparseCopy.CopyData | droplet/build_volume.py:109-119 | the inner loop copies a stretch of data, writing no block of zeros |
| SparseCopy.CopySparse | droplet/build_volume.py:89-121 | the copy is exactly the image from `start` to its end, for every arrangement of data and holes and without SEEK_DATA; it ends; every write is of the image's own data and not all zeros |
| LineCoverage.SetByteExact | tools/linecov.py:67-76 | writing a byte through its eight-byte word changes that byte and no other |
| LineCoverage.ByteInWord | tools/linecov.py:67-76 | which eight bits of which word a byte is: its address over eight, and eight bits for each place |
| LineCoverage.Tracer.PokeByte | tools/linecov.py:67-76 | answers the byte that was there and writes the new one, or fails on an address that is not mapped |
| LineCoverage.Tracer.Plant | tools/linecov.py:86 | every address of the table holds 0xCC, all other bytes are as they were, and `saved` holds the originals; it fails exactly if an address is not mapped |
| LineCoverage.Tracer.OnStop | tools/linecov.py:96-107 | one stop: a breakpoint still there is put back, its lines noted, and the program goes on from it with no signal; any other stop passes its signal on |
| LineCoverage.StepExact | tools/linecov.py:89-107 | every stop keeps it: memory is the original but for 0xCC at exactly the addresses not yet reached, `hit` is exactly the lines of those reached, and the program went on as it must each time |
| LineCoverage.Tracer.Run | tools/linecov.py:79-107 | over everything that `waitpid` may report until the end: all of that, and the exit status or the signal negated |
| Verdicts.PathExact | tools/verdicts.py:178-179 | a verdict's file name is that of one tier and one pair only |
| Verdicts.NamesAre | tools/verdicts.py:97-188 | the ids and a verdict's file as they are written, `-dirty` behind a commit that is not all there is |
| Verdicts.SpacesAre | tools/verdicts.py:236 | the characters that divide a verdict's words are Python's white space, each written out |
| Verdicts.SamePair | tools/verdicts.py:203-204 | the ids of two pairs are alike only if the pairs are |
| Verdicts.AlwaysSays | tools/verdicts.py:191-212 | however edits, starts and records interleave, a pair's file says what was kept last for it, and is there only if something was |
| Verdicts.AlwaysCameFrom | tools/verdicts.py:182-212 | every verdict kept came from a run with nothing skipped, whose latest start found the same fresh pair as its record |
| Verdicts.KeptExact | tools/verdicts.py:191-212 | over every sequence of events, a verdict is added at a step if and only if that is a record of a known tier and outcome with nothing skipped, fresh, whose run's latest start was fresh with the same ids |
| Verdicts.EditUndone | tools/verdicts.py:203-206 | so an edit that changes the ids and is undone during a run is not seen, and its verdict is kept |
| Verdicts.RequireExact | tools/verdicts.py:215-243 | there is no reason to refuse if and only if the applications can be built, all four trees are committed, and both tiers' last verdict for just this pair is PASS |
| Verdicts.RequireReports | tools/verdicts.py:215-243 | all the reasons, in their order: applications that cannot be built, alone; or each tree not committed, and then for each tier no verdict, or what the last one for this pair said, and when |
| Verdicts.OtherFiles | tools/verdicts.py:234-243 | a verdict's file of one word, or of blanks, which no record writes: the reason has no time, or there is no verdict |
| Verdicts.ReleaseJudged | tools/verdicts.py:215-243 | behind a release with no reason to refuse, each tier has a passing verdict of just its pair, from a run that began and ended on it with nothing skipped |
| Verdicts.Desk.Ids | tools/verdicts.py:182-188 | a run starts with the ids now, or with none |
| Verdicts.Desk.Keep | tools/verdicts.py:191-212 | a verdict is kept if and only if the tier and outcome are known, nothing was skipped, the checkouts are fresh and the ids are those the run started on |
| Verdicts.Desk.Require | tools/verdicts.py:215-243 | the reasons of `RequireExact`, in order |
| Backups.Check | droplet/check_backup.py:40-76 | the flaws, files and bytes of an archive, in the order the code finds them |
| Backups.FindFlaws | droplet/check_backup.py:57-75 | the totals, the count of names, and each file against its line |
| Backups.DecimalExact | droplet/check_backup.py:59-72 | a number is written in the one way there is: digits, none of them a leading zero, whose value, read from the left, is the number |
| Backups.LineExact | droplet/check_backup.py:64-75 | a line has no flaw if and only if it is the file's hash, a numeral of its size and its path with one space between |
| Backups.LineReports | droplet/check_backup.py:65-75 | what is reported of a line: that it has not three parts, or the first of path, size and hash that is wrong |
| Backups.WholeExact | droplet/check_backup.py:40-76 | an archive of files is found whole if and only if its last member is `backup-manifest.txt` and that is, line for line and in order, the head, every file's hash, size and path, and the totals, numbers as numerals; the answer then has the files' number and bytes |
| Backups.EmptyExact | droplet/check_backup.py:54-55 | an archive of no files is whole with the totals alone, or the head and the totals, and with nothing else |
| Backups.Refused | droplet/check_backup.py:41-57 | what is no archive, has no manifest at its end, or one that begins otherwise, is refused as just that |
| Backups.HeadAlone | droplet/check_backup.py:58-63 | a manifest of its head alone has no totals and names no file: these two are reported |
| Backups.OneArchive | droplet/check_backup.py:40-76 | a manifest is whole for one archive only: any other files, or the same in another order, are found out |
| Backups.CutFound | droplet/check_backup.py:17-22 | every cut to fewer members is found as having no manifest, no other member bearing the manifest's name |
| Backups.DropFound | droplet/check_backup.py:165-167 | a member dropped is found: the totals and the count of names are reported with their numbers |
| Backups.LastDropFound | droplet/check_backup.py:50-52 | so is the only one, although an archive of no files has a manifest of its own |
| Backups.ChangeFound | droplet/check_backup.py:72-75 | a file with any other bytes is found, and reported as exactly that: another hash, or other totals and another size |
| Backups.RenameFound | droplet/check_backup.py:70-71 | a file under another name is found, and only that is reported |
| Backups.TextExact | droplet/check_backup.py:48-50 | the manifest's text for names without newlines is read as its lines, with its last newline or without, and no other text is |

## Left out

- `find_volume` (tools/fat16_read.py:65-77): the place where a volume begins is a parameter, so a GPT's first partition is not looked for.
- Buffered files, `mmap`, `ptrace` and `waitpid` themselves: images are sequences of bytes, what `waitpid` reports is a parameter, reads are at logical offsets. A generator's laziness: `entries` answers its entries and reports in one list, in order.
- The wording of messages, everywhere, and hashes cut short for display. The problem of a leak carries all leaked clusters, where the source's message has their count and the first eight.
- UTF-16 decoding, code pages and case folding: names are sequences of UTF-16 units, `fold` is a parameter.
- `--anyway` of `extract`, and host file systems that refuse a name or fold case.
- The order in which `os.walk` comes to a tree's paths is a parameter that lists each path of the tree; links and special files are not part of the tree.
- Leaks.LeakExact: states the leak of any free cluster under `FsInfoReserved`; with no reserved sector the FAT lies over the boot sector and the volume may not open again.
- DamageDirs.DirectoryDecides: leaves open what the check says when the entry names the first cluster of something below the directory. The lost part of the directory may have listed it, and its bytes then are read as entries: both answers occur, and no less than those bytes decides.
- `SecondReader` follows chains only: `root_entry`, `cluster` and the files that `probe/judge_replace.py` expects are not modelled.
- Everything of `probe/judge_gopher.py` but `leak_a_cluster`, and `droplet/check_volume_tree.py` but its dates, `needs_long` and `slots`: text matching, and figures that the code calls estimates.
- Verdicts.Desk.CurrentPair: `freshness`, `git` and the hash of what an image reads are the `World` that an edit sets; `RELEASE_UNGATED` is not modelled.
- `readelf`'s line table and the union over binaries in `tools/linecov.py`; reading a tar in `droplet/check_backup.py`, whose members are a parameter, as is decoding the manifest's bytes.
- The kernel, its FAT driver and the servers, which are in Zig.

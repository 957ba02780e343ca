# MiniBeast USB agent — a Dafny model of its collection, persistence and report core

MiniBeast is a portable agent that runs from a USB stick. It takes a
snapshot of the host it is plugged into: the operating system, the network
interfaces and known Wi-Fi networks, the hardware identifiers, and the
local users. It orders every list in the snapshot canonically so that equal
hosts give byte-identical output, validates the snapshot and writes it to
disk atomically. Output is signed with Ed25519 over SHA-256. In a second
phase it builds a prompt for a small local language model and parses the
model's answer into a short report.

This project models the sequential core of that agent in Dafny:

* `CollectionTypes` (`facts.dfy`): the snapshot record and its validation.
* `Collection` (`collector.dfy`): how the four category results are merged,
  the canonical ordering, and the outcome of `CollectAll`.
* `PlatformTypes` and `Sorting` (`platform_types.dfy`, `sorting.dfy`): the
  per-platform records, the sort orders the agent uses, and the
  filter-and-collect loop every scraper shares.
* Three platform scrapers, each as a function of the text of the command
  output or file it reads:
  * `LinuxCollector` (`linux.dfy`);
  * `DarwinCollector` (`darwin.dfy`);
  * `WindowsCollector` (`windows.dfy`).
* `Config` and `ConfigLoader` (`config.dfy`, `config_loader.dfy`): the
  configuration's defaults, bounds, duration conversion, and load/save.
* `FileSystem` (`filesystem.dfy`): a `Disk` class with the `os` calls the
  agent makes, each with fault injection.
* `AtomicWriter` (`writer.dfy`): the write-then-rename writer. A crash
  history records every intermediate state of the files.
* `Keys` and `Signer` (`keys.dfy`, `signer.dfy`): PEM key files, signing,
  verifying and signature files. They are modelled against an abstract
  cryptographic `Suite` given as a parameter.
* `Prompt` and `OutputParser` (`prompt.dfy`, `parser.dfy`): prompt assembly
  and token budget, and parsing, validation, hallucination flags,
  formatting and clean-up of the model's answer.
* `GoStrings` and `Wrappers`: Go's `strings` functions on byte strings, and
  `Option`/`Result`.

Loops of the source are methods with loop invariants. Each is proved equal
to a specification function, and the lemmas about that function state what
the source promises: canonical order, round trips, what each scraper
reports for a well-formed line, which error is reported first, and so on.

## Model

| member | source | states |
|---|---|---|
| CollectionTypes.Validate | src/core/collection/types.go:48-61 | the snapshot is valid exactly when hostname, OS name and hardware UUID are all non-empty; every error carries the reason "must not be empty" |
| CollectionTypes.ValidateReportsFirstEmpty | src/core/collection/types.go:50-58 | the error names the first empty field in the order hostname, os_name, hardware_uuid |
| CollectionTypes.ValidateReadsOnlyCriticalFields | src/core/collection/types.go:48-61 | two snapshots that agree on the three checked fields validate alike |
| CollectionTypes.UnknownPasses | src/core/collection/types.go:48-61 | the collectors' "unknown" placeholder passes validation |
| CollectionTypes.ErrorText | src/core/collection/types.go:69-71 | the message is "validation failed: " followed by the field, " - " and the reason |
| CollectionTypes.ErrorTextNamesField | src/core/collection/types.go:69-71 | two errors with the same message and field length are the same error |
| Collection.Skeleton | src/core/collection/collector.go:46-56 | the initial snapshot has version "1.0.0", the given timestamp, empty strings and empty lists |
| Collection.Aggregate | src/core/collection/collector.go:158-190 | the merged snapshot keeps the version; computer name equals hostname; LocalIPs and MACAddresses are the same list |
| Collection.CategoriesCommute | src/core/collection/collector.go:158-190 | every pair of category merges commutes, so the merge order does not matter |
| Collection.AbsentCategoriesKeepSkeleton | src/core/collection/collector.go:158-190 | a category with no result leaves its fields at the initial values |
| Collection.PresentCategoriesCopied | src/core/collection/collector.go:158-190 | a present category's values are copied verbatim; the machine owner is the first user's name, or "" when there are no users |
| Collection.SortFacts | src/core/collection/collector.go:208-238 | every list is sorted by its key and is a permutation of the input list; every other field is unchanged; LocalIPs and MACAddresses stay equal when shared |
| Collection.ReorderedKeepsDuration | src/core/collection/collector.go:192-201 | setting the duration after sorting keeps the lists sorted and permuted, and validation depends only on the unsorted input |
| Collection.SortedStringListsDetermined | src/core/collection/collector.go:214-221 | the sorted logged-in users, home directories and SSIDs are uniquely determined by the input |
| Collection.PIIDelivered | src/core/collection/collector.go:119-122 | with PII collection off, the PII task delivers nothing; otherwise it delivers the collector's result |
| Collection.CollectAll | src/core/collection/collector.go:42-204 | a refused submission fails with "failed to submit <category>"; otherwise the run fails with the validation error or returns the sorted merged snapshot with the measured duration |
| Collection.NoSystemFails | src/core/collection/collector.go:159-166 | without a system result the run fails on hostname |
| Collection.EmptyUuidFails | src/core/collection/collector.go:174-177 | a hardware result with empty UUID fails the run on hardware_uuid, even when the collector reported no error |
| Collection.SuccessCondition | src/core/collection/collector.go:198-201 | validation passes exactly when the system result has a non-empty hostname and OS name and the hardware result has a non-empty UUID |
| Sorting.Insert | src/core/collection/collector.go:210-237 | inserting adds exactly one element and keeps the multiset otherwise |
| Sorting.InsertSorted | src/core/collection/collector.go:210-237 | inserting into a sorted list under a total preorder keeps it sorted |
| Sorting.SortBy | src/core/collection/collector.go:210-237 | sort.Slice and sort.Strings return a sorted permutation of their input |
| Sorting.SortedPermutationUnique | src/core/collection/collector.go:192-193 | under an antisymmetric order, two sorted permutations of the same list are equal, so the result is deterministic |
| PlatformTypes.ProfileLeIsNotLess | src/core/collection/collector.go:232-237 | "may precede" in the recent-profile sort is the negation of the less function with its arguments swapped |
| PlatformTypes.StringOrder | src/core/collection/collector.go:215-221 | byte-wise string order is total, transitive and antisymmetric |
| PlatformTypes.UserOrder | src/core/collection/collector.go:210-212 | ordering users by username is a total preorder |
| PlatformTypes.InterfaceOrder | src/core/collection/collector.go:224-229 | ordering interfaces by name is a total preorder |
| PlatformTypes.ProfileOrder | src/core/collection/collector.go:232-237 | username ascending, then last logon descending, is a total preorder |
| PlatformTypes.SortStrings | src/core/collection/collector.go:215-221 | sort.Strings returns a sorted permutation |
| PlatformTypes.SortUsers | src/core/collection/collector.go:210-212 | users sorted by username, a permutation of the input |
| PlatformTypes.SortInterfaces | src/core/collection/collector.go:224-229 | interfaces sorted by name, a permutation of the input |
| PlatformTypes.SortProfiles | src/core/collection/collector.go:232-237 | profiles sorted by username, then newest logon first, a permutation of the input |
| PlatformTypes.SortStringsDeterministic | src/core/collection/collector.go:192-193 | two sorted string lists with the same elements are equal |
| PlatformTypes.FilterMap | src/core/platform/linux/collector.go:305-335 | the scraper loop keeps at most one record per input line |
| PlatformTypes.FilterMapAppend | src/core/platform/linux/collector.go:305-335 | scanning two blocks of lines concatenates their records |
| PlatformTypes.FilterMapFrom | src/core/platform/linux/collector.go:305-335 | every record comes from some input line |
| PlatformTypes.FilterMapAll | src/core/platform/linux/collector.go:126-135 | when every input yields a record, there is one record per input, in order |
| PlatformTypes.ScanAppend | src/core/platform/darwin/collector.go:176-208 | running the line state machine over two blocks is running it over the second from where the first stopped |
| PlatformTypes.HomeDirsOf | src/core/platform/darwin/collector.go:110-142 | one home directory per user: the root followed by the username |
| PlatformTypes.CollectHomeDirs | src/core/platform/windows/collector.go:123-127 | the home-directory loop gives exactly HomeDirsOf |
| PlatformTypes.SortNetwork | src/core/platform/linux/collector.go:85-89 | interfaces sorted by name and SSIDs sorted, each a permutation of what was found |
| PlatformTypes.SortPII | src/core/platform/linux/collector.go:143-148 | users, logged-in users and home directories each sorted and permuted; no profiles; primary email "unknown" |
| LinuxCollector.OSVersionIn | src/core/platform/linux/collector.go:155-170 | without a VERSION_ID line the version is "unknown" |
| LinuxCollector.GetOSVersion | src/core/platform/linux/collector.go:155-170 | the loop reports the first VERSION_ID line's value; None when the file is unreadable |
| LinuxCollector.VersionReported | src/core/platform/linux/collector.go:160-165 | the first VERSION_ID line gives its value, with or without quotes |
| LinuxCollector.KernelVersionIsThirdField | src/core/platform/linux/collector.go:172-183 | "Linux version <release> ..." reports the release |
| LinuxCollector.GetInterfaceIP | src/core/platform/linux/collector.go:242-262 | the loop reports the address of the first inet line; None when the command fails |
| LinuxCollector.InetAddress | src/core/platform/linux/collector.go:248-258 | a line yields an address exactly when it is an inet line with a second field, and that address is the field with its CIDR suffix cut |
| LinuxCollector.InetLineHasAddress | src/core/platform/linux/collector.go:251-253 | a trimmed line starting "inet " always has a second field, so the length check never fails |
| LinuxCollector.InetFields | src/core/platform/linux/collector.go:251-255 | in "inet <addr>/<prefix>..." the second field's part before '/' is the address |
| LinuxCollector.InterfaceIPReported | src/core/platform/linux/collector.go:242-262 | the first inet line "inet <addr>/<prefix> ..." reports <addr> |
| LinuxCollector.InterfaceOf | src/core/platform/linux/collector.go:214-237 | the loopback gives no record; any other entry gives a record with its own name |
| LinuxCollector.GetNetworkInterfaces | src/core/platform/linux/collector.go:204-240 | one interface per non-loopback entry of /sys/class/net, in listing order; None when the directory is unreadable |
| LinuxCollector.ReadInterface | src/core/platform/linux/collector.go:214-237 | the loop body gives exactly InterfaceOf of the entry |
| LinuxCollector.LoopbackSkipped | src/core/platform/linux/collector.go:215-217 | removing the loopback entry changes nothing, and no record is named "lo" |
| LinuxCollector.FailedLookupsStayUnknown | src/core/platform/linux/collector.go:220-234 | with no readable address file and no inet line, IP and MAC stay "unknown" |
| LinuxCollector.EveryOtherEntryReported | src/core/platform/linux/collector.go:204-240 | without a loopback entry there is one interface per entry, with the entry's name |
| LinuxCollector.ProfileName | src/core/platform/linux/collector.go:270-275 | an entry is an SSID exactly when it is not a directory, and the SSID is its name |
| LinuxCollector.GetWiFiSSIDs | src/core/platform/linux/collector.go:264-278 | the names of the file entries, in order; no SSIDs when the directory is unreadable |
| LinuxCollector.SSIDsAreFiles | src/core/platform/linux/collector.go:270-275 | every SSID names a file entry of the directory |
| LinuxCollector.GetHardwareInfo | src/core/platform/linux/collector.go:96-113 | UUID from machine-id with the D-Bus fallback, serial from DMI, "unknown" when unreadable |
| LinuxCollector.BlankMachineIDFailsValidation | src/core/platform/linux/collector.go:280-294 | a whitespace-only machine-id gives an empty UUID and the run fails on hardware_uuid |
| LinuxCollector.UnreadableIdentifiersUnknown | src/core/platform/linux/collector.go:96-113 | with both machine-id files unreadable the UUID is "unknown"; an unreadable serial is "unknown" |
| LinuxCollector.PasswdUser | src/core/platform/linux/collector.go:318-330 | a kept user has a non-empty name that does not start with "_" |
| LinuxCollector.GetLocalUsers | src/core/platform/linux/collector.go:305-335 | the loop keeps exactly the passwd lines PasswdUser accepts, in order; None when the file is unreadable |
| LinuxCollector.PasswdLine | src/core/platform/linux/collector.go:318-330 | the loop body gives exactly PasswdUser of the line |
| LinuxCollector.PasswdEntryParsed | src/core/platform/linux/collector.go:318-330 | name:password:uid:gid:gecos:home:shell gives the user (name, gecos, uid) |
| LinuxCollector.TimezonePrecedence | src/core/platform/linux/collector.go:185-205 | a readable, non-blank /etc/timezone wins whatever $TZ and the local zone are; $TZ is used only when the file is absent or blank, the local zone only when $TZ is empty; the result is empty only when every source is |
| LinuxCollector.GetSystemInfo | src/core/platform/linux/collector.go:29-63 | OS name "Linux"; hostname, version and kernel build, each "unknown" when unreadable; timezone from /etc/timezone, then $TZ, then the local zone |
| LinuxCollector.GetNetworkInfo | src/core/platform/linux/collector.go:67-92 | the found interfaces and SSIDs, each sorted and a permutation |
| LinuxCollector.LinuxHomeDirs | src/core/platform/linux/collector.go:129-134 | "/home/<name>" for every user that passes the filter, in order |
| LinuxCollector.OneHomePerUser | src/core/platform/linux/collector.go:126-135 | every user getLocalUsers keeps passes the filter again, so there is exactly one home per user |
| LinuxCollector.GetPIIInfo | src/core/platform/linux/collector.go:117-151 | the users, the current user and one home per user, each sorted |
| DarwinCollector.ApplyProperty | src/core/platform/darwin/collector.go:193-207 | a property line never renames the interface |
| DarwinCollector.GetNetworkInterfaces | src/core/platform/darwin/collector.go:164-215 | the loop's result equals the scan of ifconfig's lines; None when ifconfig fails |
| DarwinCollector.IfconfigLine | src/core/platform/darwin/collector.go:177-207 | the loop body is exactly one step of the scan |
| DarwinCollector.ReadProperty | src/core/platform/darwin/collector.go:193-207 | the property branch is exactly ApplyProperty |
| DarwinCollector.StepNames | src/core/platform/darwin/collector.go:177-192 | a line adds an interface name exactly when it is a non-loopback header |
| DarwinCollector.InterfaceNames | src/core/platform/darwin/collector.go:164-215 | one interface per non-loopback header line, named by the text before its first ':', in order |
| DarwinCollector.NoLoopbackInterface | src/core/platform/darwin/collector.go:182 | no reported interface is lo0 |
| DarwinCollector.HeaderlessPrefixIgnored | src/core/platform/darwin/collector.go:193 | property lines before the first header are ignored |
| DarwinCollector.ColumnZeroNonHeaderIgnored | src/core/platform/darwin/collector.go:178-192 | a column-0 line that is not a header, such as lo0's, changes nothing |
| DarwinCollector.BlockScan | src/core/platform/darwin/collector.go:193-207 | scanning a block of indented lines leaves the interface with the last inet and last ether values |
| DarwinCollector.InterfaceBlock | src/core/platform/darwin/collector.go:164-215 | a header followed by an indented block gives one interface: the header's name, the last inet value and the last ether value, or "unknown" |
| DarwinCollector.HeaderOpens | src/core/platform/darwin/collector.go:183-190 | a header line opens a fresh interface with unknown IP and MAC |
| DarwinCollector.AirportSSID | src/core/platform/darwin/collector.go:232-237 | a reported SSID is non-empty and contains no whitespace |
| DarwinCollector.GetWiFiSSIDs | src/core/platform/darwin/collector.go:217-242 | the first field of every row after the header; no SSIDs when airport fails |
| DarwinCollector.AirportRowSSID | src/core/platform/darwin/collector.go:232-237 | a row whose SSID is right-aligned behind spaces reports that SSID |
| DarwinCollector.AirportHeaderSkipped | src/core/platform/darwin/collector.go:228-231 | the first line never yields an SSID |
| DarwinCollector.IoregLookup | src/core/platform/darwin/collector.go:244-262 | the value of the first line with the key and at least four '"'-parts, else ""; None when ioreg fails |
| DarwinCollector.QuotedValueReported | src/core/platform/darwin/collector.go:252-258 | a line `"<key>" = "<value>"` reports <value> |
| DarwinCollector.QuotedLine | src/core/platform/darwin/collector.go:253-256 | such a line mentions the key and its fourth '"'-part is the value |
| DarwinCollector.GetHardwareInfo | src/core/platform/darwin/collector.go:89-106 | UUID and serial from the two ioreg lookups, "unknown" when ioreg fails |
| DarwinCollector.MissingUUIDFailsValidation | src/core/platform/darwin/collector.go:261 | ioreg output without an IOPlatformUUID line is accepted as "" and the run fails on hardware_uuid |
| DarwinCollector.DsclUser | src/core/platform/darwin/collector.go:295-303 | a kept name is non-empty, does not start with "_", and is not daemon or nobody |
| DarwinCollector.GetLocalUsers | src/core/platform/darwin/collector.go:284-307 | the loop keeps exactly the lines DsclUser accepts, in order; None when dscl fails |
| DarwinCollector.DsclUsersShape | src/core/platform/darwin/collector.go:295-303 | every user is a trimmed line of the output, with full name equal to its name and an empty UID |
| DarwinCollector.GetSystemInfo | src/core/platform/darwin/collector.go:26-56 | OS name "Darwin"; hostname, version and build, each "unknown" when the lookup fails; the local zone |
| DarwinCollector.GetNetworkInfo | src/core/platform/darwin/collector.go:60-85 | the found interfaces and SSIDs, each sorted and a permutation |
| DarwinCollector.GetPIIInfo | src/core/platform/darwin/collector.go:110-142 | the users, the current user and "/Users/<name>" per user, each sorted |
| WindowsCollector.VersionAt | src/core/platform/windows/collector.go:157-161 | the version sits right after "[Version " and before the first "]" after it |
| WindowsCollector.BracketedVersionReported | src/core/platform/windows/collector.go:148-166 | "... [Version <v>]..." reports <v> when <v> is non-empty |
| WindowsCollector.EmptyBracketKeepsOutput | src/core/platform/windows/collector.go:160-165 | "[Version ]" makes the whole trimmed output the version |
| WindowsCollector.WmicValue | src/core/platform/windows/collector.go:168-185 | the value after "<key>=" on the first trimmed line with that prefix, else ""; None when wmic fails |
| WindowsCollector.KeyValueReported | src/core/platform/windows/collector.go:176-182 | the first line "<key>=<value>" reports <value> |
| WindowsCollector.GetHardwareInfo | src/core/platform/windows/collector.go:89-106 | UUID and serial from the two wmic lookups, "unknown" when wmic fails |
| WindowsCollector.MissingUUIDFailsValidation | src/core/platform/windows/collector.go:286 | wmic output without a UUID= line is accepted as "" and the run fails on hardware_uuid |
| WindowsCollector.AdapterNameNonEmpty | src/core/platform/windows/collector.go:204-209 | an adapter name is never empty, so the `Name != ""` guard always holds |
| WindowsCollector.ApplyAdapterProperty | src/core/platform/windows/collector.go:215-234 | a property line never renames the adapter |
| WindowsCollector.GetNetworkInterfaces | src/core/platform/windows/collector.go:187-242 | the loop's result equals the scan of ipconfig's lines; None when ipconfig fails |
| WindowsCollector.AppendCurrent | src/core/platform/windows/collector.go:237-239 | the final append adds the open adapter, if any |
| WindowsCollector.IpconfigLine | src/core/platform/windows/collector.go:201-234 | the loop body is exactly one step of the scan |
| WindowsCollector.StepNames | src/core/platform/windows/collector.go:204-214 | a line adds an adapter name exactly when it is an adapter header |
| WindowsCollector.AdapterNames | src/core/platform/windows/collector.go:187-242 | one interface per adapter header line, named by the line without its ':', in order |
| WindowsCollector.PreambleIgnored | src/core/platform/windows/collector.go:215 | lines before the first adapter header are ignored |
| WindowsCollector.UnsetAddressesStayUnknown | src/core/platform/windows/collector.go:210-214 | an adapter whose block has no IPv4 or Physical Address line keeps "unknown" IP and MAC |
| WindowsCollector.PhysicalAddressValue | src/core/platform/windows/collector.go:227-233 | "Physical Address: <mac>" sets the MAC to everything after the first ':', trimmed |
| WindowsCollector.IPv4AddressValue | src/core/platform/windows/collector.go:217-225 | "IPv4 Address: <ip>(Preferred)" sets the IP to <ip> |
| WindowsCollector.ProfileSSID | src/core/platform/windows/collector.go:257-264 | a reported SSID is non-empty and trimmed |
| WindowsCollector.GetWiFiSSIDs | src/core/platform/windows/collector.go:244-269 | the SSID of every "All User Profile" line, in order; no SSIDs when netsh fails |
| WindowsCollector.ProfileLineSSID | src/core/platform/windows/collector.go:257-264 | "All User Profile : <name>" reports <name> |
| WindowsCollector.CsvUser | src/core/platform/windows/collector.go:322-341 | a kept user has a non-empty name that does not start with "SYSTEM" |
| WindowsCollector.GetLocalUsers | src/core/platform/windows/collector.go:307-345 | the loop skips the first two lines and keeps exactly the rows CsvUser accepts, in order; None when wmic fails |
| WindowsCollector.CsvLine | src/core/platform/windows/collector.go:322-341 | the loop body gives exactly CsvUser of the line |
| WindowsCollector.CsvRowParsed | src/core/platform/windows/collector.go:327-339 | the row "node,fullname,name,sid" gives the user (name, fullname, sid) |
| WindowsCollector.GetSystemInfo | src/core/platform/windows/collector.go:26-56 | OS name "Windows"; hostname, version and build, each "unknown" when the command fails; the local zone |
| WindowsCollector.GetNetworkInfo | src/core/platform/windows/collector.go:60-85 | the found interfaces and SSIDs, each sorted and a permutation |
| WindowsCollector.GetPIIInfo | src/core/platform/windows/collector.go:110-144 | the users, the current user and "C:\Users\<name>" per user, each sorted |
| Config.Default | src/core/config/types.go:83-110 | the default values: PII on, signing on, 500 ms per category, 160 tokens, 8 goroutines, 2 s and 3 s phases |
| Config.Validate | src/core/config/types.go:115-141 | valid exactly when all three timeouts are positive, goroutines are in [1, 32], tokens in [1, 2048] and temperature in [0, 2] |
| Config.ValidateReportsFirstViolation | src/core/config/types.go:116-138 | the error is that of the first violated check, in source order |
| Config.DefaultIsValid | src/core/config/types.go:83-141 | the defaults pass validation |
| Config.NonPositiveTimeoutsRejected | src/core/config/types.go:116-125 | a non-positive timeout is reported on its own field with "must be positive" |
| Config.GoroutineBoundRejected | src/core/config/types.go:127-130 | with valid timeouts, a goroutine cap outside [1, 32] is rejected |
| Config.GoroutineExamples | src/core/config/types.go:127-130 | 0, -5, 33 and 1000 goroutines are each rejected on their own |
| Config.TokenBoundRejected | src/core/config/types.go:132-135 | a token cap outside [1, 2048] is rejected once the earlier checks pass |
| Config.MsToDuration | src/core/config/types.go:145-147 | the duration is ms × 10^6, wrapped to 64 bits; exact when it fits |
| Config.DefaultTimeouts | src/core/config/types.go:143-159 | the defaults give 500 ms, 2 s and 3 s |
| Config.LargeTimeoutWraps | src/core/config/types.go:145-147 | a category timeout Validate accepts can wrap to a negative Duration |
| Config.ValidTimeoutsPositive | src/core/config/types.go:143-159 | a valid timeout that fits gives a positive Duration of the same length |
| Config.ErrorText | src/core/config/types.go:167-169 | the message is "config validation failed: " followed by the field, " - " and the reason |
| ConfigLoader.OverlayEmpty | src/core/config/loader.go:21-24 | a document that sets nothing leaves the config as it was |
| ConfigLoader.Load | src/core/config/loader.go:13-32 | a read failure, a parse failure or a validation failure is reported in that order; success returns a valid config |
| ConfigLoader.LoadEmptyDocumentIsDefault | src/core/config/loader.go:21-31 | an empty document loads as the defaults |
| ConfigLoader.LoadKeepsUnsetDefaults | src/core/config/loader.go:21-31 | keys the document does not set keep their defaults |
| ConfigLoader.LoadOrDefault | src/core/config/loader.go:37-44 | the result is always valid: the loaded config, or the defaults on any error |
| ConfigLoader.Save | src/core/config/loader.go:49-74 | an invalid config or a marshal failure leaves the disk untouched; it passes exactly when the temp write and the rename succeed, neither meeting a directory; success leaves `path` holding the encoding and no temp file; a failure keeps `path` as it was; other paths untouched |
| ConfigLoader.SavedConfigLoadsBack | src/core/config/loader.go:13-74 | what Save wrote loads back as the saved config when decoding inverts encoding |
| FileSystem.MkdirAllSound | src/core/io/writer.go:31 | after a successful os.MkdirAll the path is a directory, only new directories among its ancestors were made, none over a regular file, and every one made has its parent |
| FileSystem.MkdirAllBlocked | src/core/io/writer.go:31 | os.MkdirAll of a non-empty path fails only when a regular file stands among its ancestors |
| FileSystem.MkdirAllNested | src/core/io/writer.go:107 | os.MkdirAll("out/a/b") from a bare working directory makes "out", "out/a" and "out/a/b" |
| FileSystem.MkdirAllIdempotent | src/core/io/writer.go:107 | a second os.MkdirAll of a created path makes nothing |
| FileSystem.Disk.MkdirAll | src/core/io/writer.go:31 | succeeds exactly when no fault is injected, the path is not "" and no regular file is in the way; adds exactly the directories MkdirAllCreates plans, files untouched |
| FileSystem.DirOfTmp | src/core/io/writer.go:30-36 | a file and its temp path sit in the same directory |
| FileSystem.Disk.OpenTrunc | src/core/io/writer.go:37 | os.OpenFile succeeds exactly when no fault is injected, the parent is a directory and `path` is not one; it leaves an empty file there |
| FileSystem.Disk.Rename | src/core/io/writer.go:63 | os.Rename succeeds exactly when no fault is injected, the source is a file and the target is not a directory |
| FileSystem.Disk.WriteFile | src/core/config/loader.go:63 | os.WriteFile succeeds exactly when the parent exists, `path` is not a directory and no step fails; other paths are untouched |
| FileSystem.SaveViaTemp | src/core/crypto/keys.go:38-50 | the temp-then-rename save passes exactly when `Saves` holds: no fault, the parent exists, and neither `path.tmp` nor `path` is a directory; success puts the data at `path` and removes the temp; failure keeps `path`; other paths untouched |
| AtomicWriter.FillTemp | src/core/io/writer.go:35-60 | the first failing step of creating, writing, syncing and closing the temp file, a directory at the temp path failing the create; only the temp path changes |
| AtomicWriter.WriteOpened | src/core/io/writer.go:42-60 | write, sync and close on the opened temp file report the first failing step |
| AtomicWriter.UnblockedWriteSucceeds | src/core/io/writer.go:28-76 | without injected faults, with no regular file on the way up to the parent and no directory at `path` or `path.tmp`, a write to a path other than "." or "/" passes |
| AtomicWriter.WriteOverDirectoryFails | src/core/io/writer.go:63-66 | a write onto an existing directory never passes, and with nothing else in the way it fails at the rename |
| AtomicWriter.WriteInDir | src/core/io/writer.go:35-76 | once the parent exists: the first failing step of create, write, sync, close, rename and directory sync, a directory at `path.tmp` failing the create and one at `path` the rename, with the same file outcomes as WriteAtomic and the directories untouched |
| AtomicWriter.WriteAtomic | src/core/io/writer.go:28-76 | `AtomicOutcome`: the result is the first failing step, counting a regular file in the parent's way as a failed mkdir, a directory at `path.tmp` as a failed create and one at `path` as a failed rename; afterwards the directories are the old ones plus exactly those os.MkdirAll creates; success leaves `path` holding the data and no temp; a failure before the rename keeps `path` and removes the temp; every intermediate state shows `path` old or complete |
| AtomicWriter.WriteJSON | src/core/io/writer.go:80-82 | the whole `AtomicOutcome` of WriteAtomic with mode 0644 |
| AtomicWriter.WriteBinary | src/core/io/writer.go:86-88 | the whole `AtomicOutcome` of WriteAtomic with mode 0644 |
| AtomicWriter.EnsureDirectory | src/core/io/writer.go:106-108 | succeeds exactly when no fault is injected and no regular file is in the way; afterwards the directories are the old ones plus exactly those os.MkdirAll creates, the path is one and every new one has its parent; a no-op on an existing directory |
| AtomicWriter.SecondWriteReplaces | src/core/io/writer.go:62-66 | after two completed writes the file holds the second data and no temp file remains |
| Keys.DecodeKey | src/core/crypto/keys.go:55-77 | a key loads exactly when the file reads, is PEM, has the right type and has the right size; each failure has its own error |
| Keys.DecodeEncoded | src/core/crypto/keys.go:30-77 | decoding what was encoded with the expected type and size returns the key |
| Keys.CrossLoadFails | src/core/crypto/keys.go:67-69 | a private-key file does not load as a public key, nor the reverse |
| Keys.WrongSizeRejected | src/core/crypto/keys.go:71-74 | a correctly typed payload of the wrong length is rejected with its size |
| Keys.SaveKey | src/core/crypto/keys.go:30-51 | passes exactly when `Saves` holds; saving writes the PEM encoding through a temp file, leaves other paths untouched, and a saved key decodes back to itself |
| Keys.SavePrivateKey | src/core/crypto/keys.go:30-51 | passes exactly when `Saves` holds; `path` holds the PEM "PRIVATE KEY" block, mode 0600, other paths untouched; a saved 64-byte key loads back with LoadPrivateKey |
| Keys.SavePublicKey | src/core/crypto/keys.go:81-101 | passes exactly when `Saves` holds; `path` holds the PEM "PUBLIC KEY" block, mode 0644, other paths untouched; a saved 32-byte key loads back with LoadPublicKey |
| Signer.Sign | src/core/crypto/signer.go:28-40 | fails exactly when no private key is present; a signature is 64 bytes |
| Signer.Verify | src/core/crypto/signer.go:59-69 | a signature that is not 64 bytes never verifies |
| Signer.SignThenVerify | src/core/crypto/signer.go:21-69 | a signature made with a private key verifies under its public key |
| Signer.SignatureBindsPayload | src/core/crypto/signer.go:53-69 | under an unforgeable suite, the signature of one payload does not verify another payload whose digest differs |
| Primitives.SigningAssumptionsConsistent | src/core/crypto/signer.go:28-69 | the digest-size, sign-then-verify and unforgeability assumptions hold together for a concrete suite, whose digest tells two payloads apart |
| Signer.SignatureBindsPayloadApplies | src/core/crypto/signer.go:53-69 | every hypothesis of SignatureBindsPayload holds for one suite, key and payload pair, whose signatures do not cross-verify |
| Signer.EmptyKeyPairCannotSign | src/core/crypto/signer.go:29-31 | a nil key pair, or one without a private key, cannot sign |
| Signer.SignFile | src/core/crypto/signer.go:44-51 | a read failure, else Sign of the file's contents |
| Signer.VerifyFile | src/core/crypto/signer.go:73-80 | a read failure, else Verify of the file's contents |
| Signer.SaveSignature | src/core/crypto/signer.go:84-101 | a wrong-size signature leaves the disk untouched; otherwise it passes exactly when `Saves` holds; other paths untouched; a saved signature loads back with LoadSignature |
| Signer.LoadSignature | src/core/crypto/signer.go:105-116 | succeeds exactly when the file exists and holds 64 bytes, and returns those bytes |
| Prompt.NewPromptBuilder | src/core/inference/prompt.go:17-21 | the builder holds the fixed system prompt |
| Prompt.BuildPrompt | src/core/inference/prompt.go:26-53 | nil facts or a marshal failure are errors; otherwise the prompt is instructions, "SYSTEM FACTS:", the JSON and the format instructions |
| Prompt.PromptLayout | src/core/inference/prompt.go:38-52 | the prompt starts with the instructions and heading, ends with the format, and the JSON can be read back out |
| Prompt.PromptDeterminesFacts | src/core/inference/prompt.go:24-53 | the same instructions with different facts give different prompts |
| Prompt.EstimateTokenCount | src/core/inference/prompt.go:101-103 | the estimate is the length divided by four, rounded down |
| Prompt.TokenCountExamples | src/core/inference/prompt.go:98-103 | "", "test", "test text here" and "a b c d" give 0, 1, 3 and 1 |
| Prompt.ValidateTokenCount | src/core/inference/prompt.go:106-119 | fails exactly when the 64-bit sum of estimate and reservation exceeds 2048, and reports 2048 available |
| Prompt.TokenCheckByLength | src/core/inference/prompt.go:106-119 | with a reservation in [1, 2048], the check passes exactly when the prompt is shorter than 4 × (2049 − reservation) |
| Prompt.HugeReservationWraps | src/core/inference/prompt.go:111-113 | the largest int64 reservation wraps and passes the check |
| Prompt.Truncated | src/core/inference/prompt.go:127-135 | a prefix of the list, of length min(length, 10) |
| Prompt.TruncateFacts | src/core/inference/prompt.go:123-138 | users, SSIDs and home directories cut to their first 10; every other field unchanged |
| Prompt.TruncateIdempotent | src/core/inference/prompt.go:123-138 | truncating twice is truncating once |
| Prompt.TruncateSmallUnchanged | src/core/inference/prompt.go:127-135 | facts within the caps are returned unchanged |
| Prompt.TruncatePreservesValidity | src/core/inference/prompt.go:123-138 | truncation never changes the validation outcome |
| OutputParser.ItemText | src/core/inference/parser.go:57-64 | an item's text is trimmed |
| OutputParser.Classify | src/core/inference/parser.go:36-69 | an item is non-empty and trimmed |
| OutputParser.ClassifyCases | src/core/inference/parser.go:36-69 | blank, then header by upper-cased prefix, then item, in the order the loop tests them |
| OutputParser.Kinds | src/core/inference/parser.go:31-35 | one kind per line, in order |
| OutputParser.Parse | src/core/inference/parser.go:19-94 | the loop's result equals the specification: an empty input or no summary is an error, otherwise the capped sections |
| OutputParser.ParseLine | src/core/inference/parser.go:36-85 | the loop body is exactly one step of the specification |
| OutputParser.ClassifyLine | src/core/inference/parser.go:36-69 | the tests of the loop body compute Classify |
| OutputParser.AddContent | src/core/inference/parser.go:72-85 | the capped append adds to the current section only while it is under its cap |
| OutputParser.Take | src/core/inference/parser.go:74-83 | a prefix no longer than the cap, equal to the list when it fits |
| OutputParser.CappedSnoc | src/core/inference/parser.go:35-86 | the reference description, which takes the first items of each section, advances line by line like the loop |
| OutputParser.RunIsCapped | src/core/inference/parser.go:35-86 | the loop's state equals the reference description |
| OutputParser.ParseCapsAndOrder | src/core/inference/parser.go:72-85 | at most 3 summary lines, 3 risks and 2 actions, each the first items of its section in input order |
| OutputParser.ParseKeepsShortSections | src/core/inference/parser.go:72-85 | a section with fewer items than its cap keeps all of them |
| OutputParser.ItemsAreTrimmed | src/core/inference/parser.go:57-69 | every collected item is non-empty and trimmed |
| OutputParser.ParsedItemsTrimmed | src/core/inference/parser.go:57-69 | every summary line, risk and action Parse returns is non-empty and trimmed |
| OutputParser.UnopenedSectionEmpty | src/core/inference/parser.go:33-85 | a section no header opens collects nothing |
| OutputParser.NoSummaryHeaderFails | src/core/inference/parser.go:88-91 | text without a SUMMARY header fails with "no summary section" |
| OutputParser.DashItem | src/core/inference/parser.go:59-64 | "- item" gives "item" |
| OutputParser.BulletItem | src/core/inference/parser.go:59-64 | "• item" gives "item" |
| OutputParser.BulletThenDashItem | src/core/inference/parser.go:59-64 | the markers are stripped one after another, so "•-item" loses both |
| OutputParser.Validate | src/core/inference/parser.go:98-133 | passes exactly when the summary is non-empty with lines of 10 to 500 bytes and every risk and action has at least 10 bytes; otherwise the first failed check with its index |
| OutputParser.Flagged | src/core/inference/parser.go:157-162 | a message is reported exactly when its pattern occurs in the text |
| OutputParser.DetectHallucination | src/core/inference/parser.go:138-165 | the messages of the suspicious patterns found in the lower-cased, space-joined sections |
| OutputParser.FlagPatterns | src/core/inference/parser.go:157-162 | the loop over the pattern list computes Flagged |
| OutputParser.HallucinationReported | src/core/inference/parser.go:155-162 | a listed pattern is reported exactly when it occurs in the lower-cased text |
| OutputParser.Bulleted | src/core/inference/parser.go:176-180 | one "• " line per item, in order |
| OutputParser.Format | src/core/inference/parser.go:169-208 | the report is the header, the summary block, the risks and actions blocks when non-empty, and the footer, each line ended by "\n" |
| OutputParser.ReportLinesFramed | src/core/inference/parser.go:169-208 | the report's lines, split into frame and section blocks |
| OutputParser.WriteLine | src/core/inference/parser.go:172-205 | one builder write of a line and "\n" |
| OutputParser.WriteBlock | src/core/inference/parser.go:174-203 | a title, one bullet line per item and a blank line |
| OutputParser.WriteItems | src/core/inference/parser.go:176-180 | the builder loop appends one bullet line per item |
| OutputParser.ReportSingleLines | src/core/inference/parser.go:169-208 | for items without a newline, no report line contains one |
| OutputParser.ReportSplitsIntoLines | src/core/inference/parser.go:169-208 | splitting the report on "\n" gives back its lines, then an empty string |
| OutputParser.SectionTitlesPresent | src/core/inference/parser.go:183-203 | SUMMARY: is always present; RISKS: and RECOMMENDED ACTIONS: appear exactly when their lists are non-empty |
| OutputParser.BulletLinesAreNotTitles | src/core/inference/parser.go:176-200 | no bullet line can be mistaken for a section title |
| OutputParser.StripPrefixes | src/core/inference/parser.go:222-224 | stripping never lengthens the text |
| OutputParser.StripSuffixes | src/core/inference/parser.go:233-235 | stripping never lengthens the text |
| OutputParser.CleanOutput | src/core/inference/parser.go:212-238 | the loops compute the specification; the result is trimmed and no longer than the input |
| OutputParser.TrimEachPrefix | src/core/inference/parser.go:222-224 | the loop over the prefix list computes StripPrefixes |
| OutputParser.TrimEachSuffix | src/core/inference/parser.go:233-235 | the loop over the suffix list computes StripSuffixes |
| OutputParser.PlainTextUnchanged | src/core/inference/parser.go:212-238 | trimmed text without any of the artifacts passes unchanged |
| OutputParser.AssistantPrefixRemoved | src/core/inference/parser.go:215-224 | a leading "Assistant:" is removed, and so is the whitespace after it |
| OutputParser.EndTagRemoved | src/core/inference/parser.go:226-237 | a trailing "</s>" is removed |

## Left out

- The goroutine pool, channels, per-category context timeouts and cancellation (collector.go, pool.go). `Collection.CollectAll` takes each category's result, and the first refused submission, as parameters.
- Subprocesses, file reads, `os.Hostname`, `user.Current`, `time.Local`, `os.Getenv` and the clock. They are parameters: `Option<string>` for a command output or file, with None for an error.
- The `bufio.Scanner` over /etc/passwd is modelled by the lines it yields; its 64 KiB line limit is not modelled.
- Ed25519, SHA-256, PEM, YAML and JSON are functions of an abstract `Suite`, or parameters. `Signer.SignatureBindsPayload` assumes unforgeability as a hypothesis about that suite, not a proven fact, and assumes the two payloads' digests differ rather than that SHA-256 is collision-free for all inputs, which no 32-byte digest can be.
- Signer.Sign: `ed25519.Sign` panics on a non-nil private key that is not 64 bytes; the model does not return a value for it and makes a well-sized key a caller obligation (`requires KeyWellSized`).
- Signer.SignFile: inherits the same caller obligation from `Sign`, instead of modelling the panic.
- Signer.Verify: `ed25519.Verify` panics on a 64-byte signature with a public key that is not 32 bytes; the model makes a 32-byte public key a caller obligation in that case instead of modelling the panic.
- Signer.VerifyFile: inherits the same caller obligation from `Verify`, instead of modelling the panic.
- `GenerateKeyPair` (random keys) is not modelled.
- Floating point: `temperature` is a real number.
- Unicode: strings are byte strings. `strings.ToUpper`, `ToLower`, `TrimSpace` and `Fields` act on ASCII only. Go's TrimSpace also trims Unicode spaces, and Go's Fields also splits at Unicode spaces such as U+0085 and U+00A0 once the input holds a non-ASCII byte; the model does neither.
- GoStrings.Fields: splits at ASCII whitespace only, so `KernelVersionOf`, `InetAddress`, the Darwin ifconfig property lines and `AirportSSID` do not see Unicode spaces as separators.
- File modes are tracked only where the source sets them; directory permissions and umask are not modelled.
- `FileExists` and `NewWriter` state nothing about the model and are left out.
- The platform `NewCollector` constructors and `platform.New` dispatch are left out.
- Collection.SortFacts: sort.Slice is not stable. The contract states sorted and a permutation, not which order elements with equal keys end up in. `Sorting.SortedPermutationUnique` shows the result is unique wherever keys are unique.
- Collection.CollectAll: the duration is a parameter, not measured.
- FileSystem.Disk.MkdirAll: a failed call is modelled as making no directory, while Go's os.MkdirAll may leave some parents made before the failing step. Paths are taken clean: a trailing '/' or a repeated '/' is not normalised as Go's MkdirAll does.
- Prompt.TruncateFacts: takes the facts as a value, so the nil-pointer dereference of `*facts` at src/core/inference/prompt.go:124 on a nil argument is not modelled.
- FileSystem.Disk.Rename: a directory as the source is not modelled; the writers only rename their own temp files.
- AtomicWriter.WriteAtomic: inherits that failure model from `Disk.MkdirAll`.
- AtomicWriter.EnsureDirectory: inherits that failure model from `Disk.MkdirAll`.
- LinuxCollector.GetSystemInfo: `getTimezone` never returns an error, so the source's "UTC" fallback is unreachable. The model has no such branch.
- WindowsCollector.WmicValue: `getBuildNumber`, `getHardwareUUID` and `getSerialNumber` return "" without an error when their key is absent. The model reports "" the same way.

## Notes on reading the source

- Bullet markers in `Parse` are removed one after another ("•", then "-", then "*", then "▪"), so a line can lose several markers (`OutputParser.BulletThenDashItem`).
- On macOS, ioreg reports the first line that mentions the key AND splits into at least four '"'-parts. A line mentioning the key with fewer parts is skipped.
- On Windows, the IPv4 value is only `parts[1]` of the ':'-split line, cut at '('. The MAC value is every part after the first, re-joined with ':'.
- The Linux `len(fields) >= 2` test after an "inet " prefix always holds (`LinuxCollector.InetLineHasAddress`). So does the Windows `Name != ""` guard (`WindowsCollector.AdapterNameNonEmpty`).
- An identifier accepted as "" rather than "unknown" makes the whole collection fail validation. See `Collection.EmptyUuidFails` and the `MissingUUIDFailsValidation` lemmas.

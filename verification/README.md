# Verified model of skytap's stateful cores

A Dafny model of the parts of skytap where state, bytes and concurrency meet, with proofs about every
input, every run and every interleaving. Six cores are modelled.

* **The SSL policy file.** Go renders a host map to `KEY=a,b,c` lines (`SslKit`, `SslKitStore`), C reads
  it back in 768-byte `fgets` chunks into fixed buffers (`CStrings`, `PolicyFile`, `PolicyReader`), and
  `PolicyAgreement` proves that both sides decide alike, and exactly when they do not; `PolicyNames` drops
  its assumptions about names, and `PolicyKeys` has all ten settings by name. `PolicyTails` is about over-long
  lines with any text, `RenderedPolicies` about what a rendered file fixes, and `PolicyRaces`,
  `PolicyMoments` and `PolicyOverlap` about threads that ask while others load, because `load_once` has no
  lock.
* **The impersonation table.** 256 slots with cached chains (`Impersonate`, `ImpersonateTable`), also with
  many threads between its locked regions (`ImpersonateRuns`, `ImpersonateMemory`) and under a policy
  that is reloaded between calls (`ImpersonateReload`).
* **The WebSocket frame codec** of sections 5.2, 5.3 and 5.5.1 of RFC 6455 (`WsCodec`, `WsIo`).
* **The registry and the live-flow protocol** (`Registry`, `LiveFlow`): one step of the machine is one
  lock region, or some bytes of one socket write.
* **The rule engine**: matching and edits (`Rules`, `RuleEngine`), the request callback under concurrent
  edits (`OnRequest`), the callbacks run alone (`App`), script markers (`Markers`), the short-hand
  replacer (`Replacer`), and the rewrite of a request (`Rewrite`).
* **The SOCKS5 handshake** of sections 3 to 6 of RFC 1928 (`Socks`, `SocksIo`) with the joining and
  splitting of host and port (`HostPort`).

Code that works by updating state is a class or a method over arrays here too, proved equal to a
specification function; what the code promises is then proved about that function. The library code that
the original calls is a parameter: the scripts, the templates and the JSON codec (`Rewrite.Scripts`,
`Rewrite.Codec`, `LiveFlow.Json`), the PEM directory (`SslKit.PemDir`, `Impersonate.Config`), the text of
an IP address, the clock and the environment (`PolicyFile.Call`, `PolicyFile.World`), and the random rule
ids. Map iteration takes any order.

`dafny verify dfyconfig.toml` checks the whole project.

## Where the code does less than it seems to

* A list line over 767 characters loses a host on the C side: the agreement holds if and only if the
  line fits (`ImpersonateAgreesExactlyWhenFits`, `KitAgreesExactlyWhenFits`, `OverlongListExists`).
* Go trims a host name before it looks it up, C does not, so they agree on names without blanks around
  them only (`ImpersonateAgrees`, `PaddedNameDisagrees`).
* Go takes any name and any pin text. A comma, blank or newline in a name makes C lose it, and a newline in
  a text sets whatever the rest of it says (`PolicyNames.ImpersonateAgreesExactly`, `CommaNameDisagrees`,
  `NewlineSetsAnything`).
* `load_once` empties both lists before it reads the files, with the policy marked as loaded. A thread that
  asks meanwhile can get an answer that neither the policy before nor the one being loaded gives:
  `AnswerIsAPolicysExactly` and `LoadIsHarmlessExactly` say when, `OpenMomentIsWrong` and
  `SwitchMomentIsWrong` are the two ways.
* Over-long by-host lines set nothing as long as none of their continuation chunks names a setting, which
  holds for values without upper-case letters (`UnknownLineIsIgnoredExactlyWhenQuiet`, `HarmlessTail`).
* Without a data directory `persistLocked` skips the client file as well: it is in step exactly while the
  policies are those of the start (`RunWithoutDataDir`; `StaleFileExists` is one Put that breaks it).
* A lookup writes its host back after loading the chain. Another name written for the pointer in between,
  by a bind or a lookup, is lost (`LostBindExists`), and nothing else makes a difference
  (`LateWriteIsAtomicExactlyWhenAlone`). Then a lookup with a server name still acts as one step where it
  writes, one without fits in nowhere (`SniLookupActsAtOnce`, `LookupActsAtOnceExactlyWhenAlone`).
* A cached chain is handed out before the policy is asked, so switching a host off does not stop a
  connection that has its chain (`CurrentExactlyWhenMissedOrEnabled`, `StaleAnswerExists`).
* `OnRequest` looks the rule up twice. A rule edit in between can leave a mocked request neither answered
  nor rewritten (`TornDecisionExists`); `OneListExplains` gives the exact condition.
* A body whose object does not end within 2^20 bytes is cut before it is decoded, and its own keys are lost
  (`OwnKeysSurviveExactlyWhenItFits`, `OversizedBodyLosesItsKey`). If marshalling failed, `GetBody` would
  still replay the old body (`AgreesExactlyWhenWritten`), but a codec that can write what it has read never
  gets there (`AgreesAlways`).
* A template that fails leaves the short forms expanded rather than the text as written
  (`FailuresKeepTheTextExactlyWhenClean`, `ShortFormStaysExpanded`).
* The SOCKS5 handler does not look at the offered methods. Its answer is the one that section 3 of RFC 1928
  asks for exactly when method 0 was offered (`MethodIsRightExactlyWhenOffered`, `UnofferedMethodExists`).
  It does not look at the reserved byte either.
* The frame reader allocates the announced length. It panics exactly on a complete header that announces
  more than the runtime can allocate, a bound that every theorem takes as a parameter, and so on every
  64-bit length whose top bit is set (`PanicsExactlyWhenRefused`, `PanicExists`).

## Model

| member | source | states |
|---|---|---|
| `PolicyAgreement.ImpersonateAgrees` | sslkit/skytap_ssl_policy.c:157-187 | For any legal host map, iteration order, first file and earlier load, reading the rendered file makes `skytap_impersonate_host(h)` true exactly when Go's `ImpersonateEnabled(h)` is and h has no blanks around it, if the list line fits one 767-character chunk |
| `PolicyAgreement.KitAgrees` | sslkit/skytap_ssl_policy.c:189-195 | Same for `skytap_kit_host`: true exactly when no host has Kit or h has it |
| `PolicyAgreement.ImpersonateAgreesExactlyWhenFits` | sslkit/skytap_ssl_policy.c:85-103 | The agreement holds for every trimmed name if and only if the list line fits one chunk |
| `PolicyAgreement.KitAgreesExactlyWhenFits` | sslkit/skytap_ssl_policy.c:189-195 | The same if-and-only-if for the kit gate, once some host has Kit |
| `PolicyAgreement.PaddedNameDisagrees` | sslkit.go:179-185 | A blank in front of an enabled name: enabled for Go, unknown to C |
| `PolicyAgreement.OverlongListLosesName` | sslkit/skytap_ssl_policy.c:90-91 | A list line over 767 characters always loses a listed name on the C side |
| `PolicyAgreement.OverlongListExists` | sslkit/skytap_ssl_policy.c:90-91 | One name of 800 characters makes such a line |
| `PolicyAgreement.CutLosesName` | sslkit/skytap_ssl_policy.c:157-172 | Cutting a joined list anywhere before its end drops one of its distinct names from the tokens |
| `PolicyAgreement.TokensOfJoin` | sslkit.go:216-220 | Tokenising a joined list gives back the names in order |
| `PolicyAgreement.WholeListDecides` | sslkit/skytap_ssl_policy.c:157-172 | `host_in_list` on a list that arrived whole is membership up to case |
| `PolicyTails.UnknownLineIsIgnoredExactlyWhenQuiet` | sslkit/skytap_ssl_policy.c:85-103 | A by-host line with any text leaves every setting of every policy that the buffers can hold alone if and only if it fits one chunk or none of its continuation chunks names a setting |
| `PolicyTails.ByHostKeysAreUnknown` | sslkit/skytap_ssl_policy.c:59-83 | The pin-by-host and verify-by-host keys set nothing |
| `PolicyTails.NameAtBoundaryIsNotQuiet` | sslkit/skytap_ssl_policy.c:91-101 | A list setting's own name at a chunk boundary does set it |
| `PolicyTails.TailGoesThrough` | sslkit/skytap_ssl_policy.c:91-101 | Reading the rest of a line is going through its 767-character pieces in order |
| `PolicyAgreement.HarmlessTail` | sslkit/skytap_ssl_policy.c:91-101 | The continuation chunks of an over-long line set no setting, however many there are |
| `PolicyAgreement.ReadLine` | sslkit/skytap_ssl_policy.c:85-103 | Reading one line of any length gives its key exactly the part of its value in the first chunk |
| `PolicyAgreement.ReadBody` | sslkit.go:193-222 | The three list settings after reading the rendered file into any policy |
| `PolicyAgreement.LoadedLists` | sslkit/skytap_ssl_policy.c:123-146 | The three list settings of a whole load, whatever was loaded before |
| `PolicyAgreement.EndToEnd` | sslkit.go:82-222 | Over a run of the Go store and a run of C calls, every C decision is the Go decision of some call less than two seconds earlier |
| `PolicyAgreement.PutReachesC` | sslkit.go:104-125 | After a Put and a load of the file it wrote, C impersonates the host exactly when Put was sent that, and lets it through the kit gate exactly when it was sent Kit or no host has it, where the list lines fit |
| `PolicyNames.ImpersonateAgreesExactly` | sslkit/skytap_ssl_policy.c:157-187 | For every keyed map whose by-host lines set nothing beyond their own keys: C and Go agree on every trimmed name if and only if no enabled name is empty or has a comma, blank, tab, newline or NUL in it, and the list line fits one chunk |
| `PolicyNames.KitAgreesExactly` | sslkit/skytap_ssl_policy.c:189-195 | The same for the kit gate, for the same maps, once some host has Kit |
| `PolicyNames.SameExactly` | sslkit/skytap_ssl_policy.c:157-187 | For every keyed map and whatever was loaded: C and Go agree on every trimmed name if and only if the trimmed names on the loaded list, none if the switch is off, are the enabled names |
| `PolicyNames.KitSameExactly` | sslkit/skytap_ssl_policy.c:189-195 | The same for the kit gate: if and only if the loaded list is not empty and its trimmed names are those with Kit |
| `PolicyNames.TameLists` | sslkit.go:193-222 | The three list settings after a load of such a map, whatever characters are in its names |
| `PolicyNames.DelimNameIsNeverFound` | sslkit/skytap_ssl_policy.c:157-172 | C never finds an empty name or one with a comma, blank, tab or newline in it, in any list |
| `PolicyNames.DelimNameDisagrees` | sslkit.go:104-125 | An enabled name that is empty or has a comma, blank, tab or newline in it: C and Go disagree, whatever the file, the load, the by-host lines and the other hosts are |
| `PolicyNames.CommaNameDisagrees` | sslkit.go:104-125 | A map of one host, "a,b", on which they do |
| `PolicyNames.NewlineSetsAnything` | sslkit.go:209-219 | One host with a newline in its pin text: the file written for it gives any chosen setting any chosen value that fits a line |
| `PolicyFile.LoadResolves` | sslkit/skytap_ssl_policy.c:105-147 | Each setting after a load: environment, else last value in the second file, else in the first, else default, cut to its buffer; `SSLKEYLOGFILE` only while keylog is empty |
| `PolicyKeys.KeysSetTheirSettings` | sslkit/skytap_ssl_policy.c:59-83 | Each of the ten literal keys sets the setting of its buffer, cut to that buffer's size, and no other |
| `PolicyKeys.VariablesOverride` | sslkit/skytap_ssl_policy.c:125-138 | Each of six literal variable names overrides both files; SSLKEYLOGFILE stands in for an empty keylog |
| `PolicyKeys.ListVariablesOverride` | sslkit/skytap_ssl_policy.c:139-146 | The same for the other four |
| `PolicyKeys.NothingSet` | sslkit/skytap_ssl_policy.c:8-31 | What is compiled in, by literal values: the kit gate is open, nobody is impersonated although the switch is on |
| `PolicyKeys.OnlyOffSwitchesOff` | sslkit/skytap_ssl_policy.c:174-178 | The switch is off for the word off alone |
| `PolicyKeys.RenderedPathsAreLoaded` | sslkit.go:213-220 | After loading a rendered file, CA, proxy and certificate directory are the ones that Go writes, whatever the first file says, unless the environment overrides them |
| `PolicyKeys.RenderedFileKeepsTheRest` | sslkit.go:213-220 | The other four settings are as if there were no such file |
| `PolicyFile.FilesResolve` | sslkit/skytap_ssl_policy.c:123-124 | The part of it that the two files decide |
| `PolicyFile.ApplyAllIsLast` | sslkit/skytap_ssl_policy.c:59-83 | Applying a list of pairs leaves each setting with its last value, cut to the buffer |
| `PolicyFile.CopyDefaultsForgets` | sslkit/skytap_ssl_policy.c:113-122 | The first lines of a load erase everything earlier loads left |
| `PolicyFile.ServedIsSomeLoad` | sslkit/skytap_ssl_policy.c:108-112 | Over any run the served policy is exactly what one call of the run loaded |
| `PolicyFile.ServedIsFresh` | sslkit/skytap_ssl_policy.c:105-112 | With a clock that never steps back it resolves the settings of a moment less than two seconds ago |
| `PolicyFile.LoadServesTwoSeconds` | sslkit/skytap_ssl_policy.c:108-112 | A load serves every call of the two seconds after it |
| `PolicyFile.LoadsAgainAfterTwoSeconds` | sslkit/skytap_ssl_policy.c:108-112 | A call two seconds after the last load, or the first one, loads |
| `PolicyRaces.OpsAreLoad` | sslkit/skytap_ssl_policy.c:113-146 | The assignments of a load, one after the other, make its policy out of any buffers |
| `PolicyRaces.LoadIsJob` | sslkit/skytap_ssl_policy.c:113-114 | They begin with the two emptied lists |
| `PolicyRaces.ListDuringLoad` | sslkit/skytap_ssl_policy.c:113-146 | The kit list after the first k assignments of a load, for every k: the last value given to it, cut to its buffer, else the list before; none after two, the loaded one at the end |
| `PolicyRaces.StepKeepsState` | sslkit/skytap_ssl_policy.c:105-147 | Every step of every thread keeps the buffers those of the last load, or of the assignments made so far by the one under way |
| `PolicyRaces.ReachableStatesAreOk` | sslkit/skytap_ssl_policy.c:105-147 | That invariant in every reachable state in which loads do not overlap |
| `PolicyRaces.FoundLists` | sslkit/skytap_ssl_policy.c:189-195 | What a thread finds that looks: the last loaded list when no load is under way, else the last list that the assignments made so far have given, else the list before |
| `PolicyMoments.AnswerIsAPolicysExactly` | sslkit/skytap_ssl_policy.c:189-195 | In every run, an answer given during a load is that of the policy before or of the one being loaded if and only if the list found is right for the host: none only if one of them lets it in, else on the list only if on one of theirs, off it only if off one |
| `PolicyMoments.HarmlessExactly` | sslkit/skytap_ssl_policy.c:157-172 | A list found is right for every host if and only if its names are at least those on both lists and at most those on either, an empty list standing for all names |
| `PolicyMoments.LoadIsHarmlessExactly` | sslkit/skytap_ssl_policy.c:105-147 | No answer during a load is wrong if and only if every list it passes through is harmless; then the policy before or the one loaded lets every host in |
| `PolicyMoments.EveryMomentIsSeen` | sslkit/skytap_ssl_policy.c:105-147 | For any two loads, any number of assignments of the second and any host, a run in which another thread looks at that moment |
| `PolicyMoments.OpenMomentIsWrong` | sslkit/skytap_ssl_policy.c:113-114 | Between any two policies with a list: a run that lets a host in which neither lets in |
| `PolicyMoments.SwitchMomentIsWrong` | sslkit/skytap_ssl_policy.c:123-124 | Two files with two different names: runs between their assignments that let in a host which the policies before and after do not, and refuse one that both let in |
| `PolicyRaces.ReloadOpensGate` | sslkit/skytap_ssl_policy.c:108-114 | From any state with an old policy, six steps of two threads end with an empty list found, whatever both policies say |
| `PolicyRaces.GateCanBeShut` | sslkit/skytap_ssl_policy.c:189-195 | A policy that lets one host in and another not |
| `PolicyRaces.RecentIsServed` | sslkit/skytap_ssl_policy.c:108-112 | The time check of the threads is that of the timed reload |
| `PolicyOverlap.EverySettingIsSomeLoads` | sslkit/skytap_ssl_policy.c:105-147 | With any number of overlapping loads, in every reachable state each setting but keylog is as one finished load left it, or as one load under way has made it so far |
| `PolicyOverlap.OverlappingLoadsSettle` | sslkit/skytap_ssl_policy.c:105-147 | Once none is under way, the kit gate is that of one of the loads |
| `PolicyOverlap.SameLoadsSettleAlike` | sslkit/skytap_ssl_policy.c:105-147 | If all load the same files and environment, every setting but keylog ends as one load alone leaves it |
| `PolicyReader.SslPolicy.LoadOnceInPlace` | sslkit/skytap_ssl_policy.c:105-147 | The ten static buffers after `load_once` mean the reader state of the specification; every buffer stays NUL-terminated |
| `PolicyReader.SslPolicy.LoadConf` | sslkit/skytap_ssl_policy.c:85-103 | The fgets loop over the 768-byte buffer applies the pairs of the file |
| `PolicyReader.SslPolicy.ApplyPair` | sslkit/skytap_ssl_policy.c:59-83 | One strncpy into the buffer of the key, none for an unknown key |
| `PolicyReader.SslPolicy.SkytapImpersonateHost` | sslkit/skytap_ssl_policy.c:181-187 | Two time-limited loads, then the decision on the buffers |
| `PolicyReader.SslPolicy.SkytapImpersonateOn` | sslkit/skytap_ssl_policy.c:174-178 | A time-limited load, then whether the switch is anything but off |
| `PolicyReader.SslPolicy.SkytapKitHost` | sslkit/skytap_ssl_policy.c:189-195 | One time-limited load, then the decision on the buffers |
| `PolicyReader.Fgets` | sslkit/skytap_ssl_policy.c:90-91 | The line buffer holds the next chunk: to the newline or 767 characters |
| `PolicyReader.SplitLine` | sslkit/skytap_ssl_policy.c:92-100 | Comment test, strchr and the two in-place trims give exactly the pair that the chunk means |
| `PolicyReader.FindInList` | sslkit/skytap_ssl_policy.c:157-172 | The strtok_r loop on the local copy decides case-insensitive membership among the tokens |
| `CStrings.TrimInPlace` | sslkit/skytap_ssl_policy.c:47-57 | The in-place trim leaves the trimmed string and touches no byte outside the string it was given |
| `CStrings.TrimDropsBlanks` | sslkit/skytap_ssl_policy.c:47-57 | A trim drops the blanks, tabs, returns and newlines at both ends, and nothing else |
| `CStrings.FoldByLetters` | sslkit/skytap_ssl_policy.c:168 | Names equal up to case are equal letter by letter, A to Z being the letters 32 places before a to z |
| `GoStrings.TrimSpaceDropsWhite` | sslkit.go:83 | TrimSpace drops the ASCII white space at both ends, and nothing else |
| `CStrings.StrTok` | sslkit/skytap_ssl_policy.c:167 | One strtok_r call yields the next token and leaves the remaining ones |
| `CStrings.StrNCpy` | sslkit/skytap_ssl_policy.c:64 | strncpy with size-1 leaves the value cut to the buffer, never touching the last byte |
| `SslKit.NormaliseIdempotent` | sslkit.go:83 | Trimming and lower-casing a host name twice is the same as once |
| `SslKit.StepStaysInStep` | sslkit.go:82-177 | Each store operation keeps the file a rendering of the map and every key its entry's Host |
| `SslKit.PutLeaves` | sslkit.go:104-125 | A Put changes the entry under the normalised name alone: flags as sent, pin and verify as sent or off and ca, certificate data from the file, else its own if it has a key hash, else those known before; ImpersonateEnabled answers as sent |
| `SslKit.CaptureLeaves` | sslkit.go:155-177 | A Capture keeps flags, pin and verify, filled in where empty, and renews the certificate data; without name or chain it changes nothing |
| `SslKit.ReadingLeaves` | sslkit.go:82-102 | Get and All leave the file, and renew certificate data in memory only, for one entry or all |
| `SslKit.RenderedText` | sslkit.go:213-220 | The rendered text line by line, with its literal keys and paths |
| `SslKit.ByHostEntries` | sslkit.go:199-212 | The by-host lists have an entry host=value for each host with a pin, or a verify |
| `SslKit.RunStaysInStep` | sslkit.go:69-177 | The same over every run with a data directory, although Get and All also write the map |
| `SslKit.FileNeverChanges` | sslkit.go:70-72 | Without a data directory no run changes the file |
| `RenderedPolicies.RendersAlikeExactlyWhenSame` | sslkit.go:193-222 | Two legal maps with pins and verifies filled in share a rendering if and only if they hold the same policies, captured data aside |
| `RenderedPolicies.RunWithoutDataDir` | sslkit.go:69-80 | Without a data directory the file is in step after a run if and only if the policies are those of its start |
| `RenderedPolicies.StaleFileExists` | sslkit.go:104-125 | One Put of a new host without a data directory, after which the file is out of step |
| `RenderedPolicies.JoinFixesEntries` | sslkit.go:209-219 | A joined list of host=value entries can be taken apart in one way only |
| `SslKitStore.SSLKitStore.WriteClientConfLocked` | sslkit.go:193-222 | The loop over the map writes a rendering of it in some iteration order |
| `SslKitStore.SSLKitStore.Get` | sslkit.go:82-92 | Is the Get step and returns the refreshed entry, or defaults for an unknown host |
| `SslKitStore.SSLKitStore.All` | sslkit.go:94-102 | For every map, entries added under another key while the loop runs included: no entry is lost, every one is listed, each entry listed is one of before refreshed, a key holds a listed entry of its own host if there is one with a certificate, and what it held before if not; on a keyed map it is the All step, every entry refreshed once and listed once, in any order |
| `SslKitStore.SSLKitStore.Put` | sslkit.go:104-125 | Is the Put step, persisting included |
| `SslKitStore.SSLKitStore.Capture` | sslkit.go:155-177 | Is the Capture step, with both error returns |
| `SslKitStore.SSLKitStore.ImpersonateEnabledFor` | sslkit.go:179-185 | Looks the normalised name up in the map |
| `SslKitStore.SSLKitStore.RefreshLocked` | sslkit.go:127-153 | Writes the map exactly when a certificate was read |
| `Impersonate.CacheIsTransparent` | sslkit/skytap_impersonate.c:77-136 | After any history of bind and lookup calls, the answer is that of a machine with no cached chains, also when all 256 slots are taken; the table invariant holds |
| `Impersonate.LeafIsFirstCertificate` | sslkit/skytap_impersonate.c:95-144 | After any history, the certificate shown is the first one that the directory has for the server name, else the name remembered for the pointer, else the last one noted, if impersonation is on and that host enabled |
| `Impersonate.BindRemembersExactlyWhenRoom` | sslkit/skytap_impersonate.c:53-93 | A bind of a new pointer is remembered exactly while fewer than 256 are, and touches no other pointer |
| `Impersonate.SecondLookupHits` | sslkit/skytap_impersonate.c:114-118 | What a lookup has cached is handed out to the next one of the same pointer, under any policy that is on, and changes nothing |
| `Impersonate.BindRefines` | sslkit/skytap_impersonate.c:77-93 | A bind keeps the table invariant, evicts nothing, and is the bind of the reference memory |
| `Impersonate.ChainRefines` | sslkit/skytap_impersonate.c:95-136 | A lookup gives the uncached answer and leaves the memory that the uncached lookup leaves |
| `Impersonate.FaceKeepsTable` | sslkit/skytap_impersonate.c:53-75 | Find-or-create keeps the occupied prefix, shares no pointer, evicts nothing, and fails only on a full table |
| `Impersonate.WritesKeepTable` | sslkit/skytap_impersonate.c:105-135 | The two locked writes keep the invariant |
| `Impersonate.OccupiedCount` | sslkit/skytap_impersonate.c:58-66 | As many pointers are remembered as slots exist exactly when no slot is empty |
| `ImpersonateRuns.StepKeepsWorld` | sslkit/skytap_impersonate.c:53-136 | Every locked region of any thread keeps the table invariant, although the load runs outside the lock |
| `ImpersonateRuns.ReachableWorldsAreOk` | sslkit/skytap_impersonate.c:53-136 | The invariant in every reachable state of any interleaving, and every answer given is the one due for its host |
| `ImpersonateRuns.NothingIsEvicted` | sslkit/skytap_impersonate.c:58-71 | Along any run no slot is taken from its pointer |
| `ImpersonateRuns.PickedAnswerIsUncached` | sslkit/skytap_impersonate.c:106-135 | The answer of a thread is fixed when it picks its host: what an uncached lookup on the names in the table at that moment returns |
| `ImpersonateMemory.RunMeansMemory` | sslkit/skytap_impersonate.c:20-136 | Any interleaving of threads refines a machine that remembers names only, each locked region one of its steps |
| `ImpersonateMemory.LastNameWins` | sslkit/skytap_impersonate.c:77-136 | In every reachable state a remembered pointer has the name last written for it, by a bind or a lookup |
| `ImpersonateMemory.AnswerFollowsTheNames` | sslkit/skytap_impersonate.c:106-135 | A thread's answer is the uncached one on the names that the steps up to its pick have made |
| `ImpersonateMemory.LateWriteIsAtomicExactlyWhenAlone` | sslkit/skytap_impersonate.c:106-134 | A lookup's write after its load leaves what a write at its pick would have left, if and only if the table had no room for the pointer or the pointer got no other name in between, by a bind or a lookup |
| `ImpersonateMemory.LookupActsAtOnceExactlyWhenAlone` | sslkit/skytap_impersonate.c:106-134 | A lookup without server name fits as one step into some place between its pick and its write, same memory and same answer, if and only if that condition holds |
| `ImpersonateMemory.SniLookupActsAtOnce` | sslkit/skytap_impersonate.c:106-134 | A lookup with a server name always fits in, where it writes |
| `ImpersonateMemory.LostBindExists` | sslkit/skytap_impersonate.c:77-136 | A run of thirteen moves in which a complete bind is undone by an earlier lookup |
| `ImpersonateMemory.NoOrderLosesIt` | sslkit/skytap_impersonate.c:77-136 | Both orders of the same three calls, run one after the other, end with the bound name |
| `ImpersonateReload.CurrentExactlyWhenMissedOrEnabled` | sslkit/skytap_impersonate.c:114-126 | Under a policy that changes between calls, an answer is the one of the policy served to that call if and only if nothing was cached for its host or the host is enabled |
| `ImpersonateReload.BindMakesCurrent` | sslkit/skytap_impersonate.c:86-91 | After a bind the next lookup of the pointer is answered by the policy |
| `ImpersonateReload.StaleAnswerExists` | sslkit/skytap_impersonate.c:114-118 | A host switched off after a lookup: the chain is still handed out |
| `ImpersonateReload.MissedLookupFollowsGo` | sslkit/skytap_impersonate.c:120-126 | A lookup with nothing cached yields a chain exactly when, at a policy call less than two seconds earlier, the Go map had the host enabled and the host has a chain, where the list line fits |
| `ImpersonateTable.FaceTable.SkytapNoteHost` | sslkit/skytap_impersonate.c:20-27 | Remembers a non-empty name as the last host |
| `ImpersonateTable.FaceTable.SkytapFace` | sslkit/skytap_impersonate.c:53-75 | The search loop over the array is the find-or-create of the specification |
| `ImpersonateTable.FaceTable.SkytapBindHost` | sslkit/skytap_impersonate.c:77-93 | Is the bind of the specification on the array |
| `ImpersonateTable.FaceTable.SkytapChainForSsl` | sslkit/skytap_impersonate.c:95-136 | Is the lookup of the specification on the array |
| `ImpersonateTable.FaceTable.SkytapImpersonateLeaf` | sslkit/skytap_impersonate.c:138-144 | The first certificate of the chain, if there is one |
| `WsCodec.ReadsBack` | ws.go:95-135 | Every frame whose payload can be allocated, in each length form and masked by any key or not, is read back, and exactly its bytes are consumed |
| `WsCodec.ReadMeansFrame` | ws.go:95-135 | Conversely every successful read consumed an encoding of the frame it returned |
| `WsCodec.CutFrameFails` | ws.go:95-124 | Every proper prefix of a frame is refused: a panic if its header is complete and announces more than can be allocated, else an error |
| `WsCodec.PanicsExactlyWhenRefused` | ws.go:113-121 | For a runtime that can allocate slices shorter than `room` only, whatever room is: the reader panics if and only if the header is complete and announces room bytes or more; a set top bit always does, and if room is 2^63 nothing else does |
| `WsCodec.BitOperations` | ws.go:99-134 | The arithmetic on bytes is what the masks and the or of the source are on eight bits |
| `WsCodec.XorByBits` | ws.go:125-129 | A bit of the xor of two bytes is set exactly when their bits differ, for each of the eight, by division and remainder |
| `WsCodec.ReadByBits` | ws.go:95-135 | What a successful read returns, by the bytes alone: where the payload starts, how long it is, and each of its bits, flipped exactly where the mask is there and its bit of byte i % 4 is set |
| `WsCodec.ClosedByBits` | ws.go:130-133 | A read ends the session exactly on a whole frame of opcode 8 |
| `WsCodec.HelloIsRead` | ws.go:95-135 | The masked example frame of section 5.7 of RFC 6455 is read as Hello |
| `WsCodec.PanicExists` | ws.go:113-121 | Ten bytes with the top bit set on which it always panics, and ten without it on which it panics when 2^62 bytes cannot be allocated |
| `WsCodec.StreamReadsBack` | ws.go:87-92 | Repeated reads over concatenated frames that can be allocated and a cut one give exactly the payloads up to the first close frame, then nothing more |
| `WsCodec.ServerFrameIsWire` | ws.go:29-47 | What writeWSFrame writes is the wire form of an unmasked final frame in its shortest length form |
| `WsCodec.ServerFrameReadsBack` | ws.go:23-47 | Sent text frames are read back |
| `WsCodec.MaskedTwice` | ws.go:125-129 | Masking is its own inverse |
| `WsCodec.BigEndianRoundTrip` | ws.go:40 | Big-endian numbers are read back |
| `WsCodec.FromBigEndianRoundTrip` | ws.go:107-113 | Any bytes are the big-endian form of the number read from them |
| `WsIo.WsConn.WriteWSFrame` | ws.go:29-47 | The two writes put one whole frame on the connection |
| `WsIo.ByteReader.ReadWSFrame` | ws.go:95-135 | The sequential reads return the result of the frame parser and leave its rest |
| `WsIo.UnmaskInPlace` | ws.go:125-129 | The in-place loop masks the payload |
| `WsIo.Hub.Add` | hub.go:20-24 | Adds exactly the client |
| `WsIo.Hub.Remove` | hub.go:26-30 | Removes exactly the client |
| `WsIo.Hub.Publish` | hub.go:32-46 | Every client gets the message once, as one frame, in any order of clients |
| `Registry.RingRefinesLog` | registry.go:68-84 | After any run the flows of a host are the last 64 of its unbounded log since it was last cleared |
| `Registry.RingHoldsExactly` | registry.go:68-77 | A flow is in the ring exactly when its host was not cleared since and fewer than 64 flows of that host followed |
| `Registry.LogPosition` | registry.go:68-141 | Where a flow stands in the log of its host, counted from the end |
| `Registry.HitsCountObservations` | registry.go:40-50 | Hits equal the observations since the host was deleted or all was reset |
| `Registry.HitsHaveStates` | registry.go:40-50 | Hosts with hits are a subset of hosts with a state |
| `Registry.StateIsGiven` | registry.go:40-66 | After any run a host has the state last given to it since it was deleted or all was reset, OBSERVED once observed, and OBSERVED by default |
| `Registry.DomainsList` | registry.go:86-94 | The list has each host with a state once, with that state and its observations |
| `Registry.Registry.Observe` | registry.go:40-50 | Is the event of that name on the registry's value |
| `Registry.Registry.SetState` | registry.go:62-66 | Is the event of that name |
| `Registry.Registry.AddFlow` | registry.go:68-77 | Append and trim is the event of that name |
| `Registry.Registry.Domains` | registry.go:86-94 | Lists each host with a state once, with its state and hits |
| `Registry.Registry.LoadStates` | registry.go:106-112 | The loop merges the states, the new ones winning |
| `Registry.Registry.DeleteHost` | registry.go:114-123 | Is the event of that name |
| `Registry.Registry.ClearFlows` | registry.go:125-133 | Is the event of that name: one host, or all for the empty name |
| `Registry.Registry.Reset` | registry.go:135-141 | Is the event of that name |
| `LiveFlow.NoFlowIsLostOnTheWire` | ws.go:72-85 | The main result, in bytes: a client past its snapshot that decodes what it received finds the marshalled snapshot, and every flow published before its removal either marshalled at its place of the publish order, or recorded before it joined and in the snapshot unless cleared, pushed out by 64 later flows, or of a host without a state |
| `LiveFlow.BytesHoldEverything` | ws.go:72-85 | The same payload by payload: one is the marshalled snapshot, the others are, in order, the marshalled publications from the client's joining on, up to the last one delivered |
| `LiveFlow.CompleteRunExists` | ws.go:72-85 | For any two flows, a run in which the client ends with the first one in its snapshot and the second one behind it |
| `LiveFlow.MessageIsTextFrame` | ws.go:23-27 | Every message goes out as one final, unmasked text frame in the shortest length form |
| `LiveFlow.NoFlowIsLost` | ws.go:72-85 | The step before, on messages: in every interleaving a flow published before a client's removal is its live message at that place of the publish order, or was recorded before it joined and is in its snapshot unless it was gone |
| `LiveFlow.FramesAreNeverTorn` | ws.go:23-27 | In every reachable state a client that decodes what it has received, and can allocate the messages sent to it, gets their json encodings one by one, whole and in order, the one whose last byte is out included, and at most a cut frame at the end |
| `LiveFlow.LiveFramesAreASegment` | hub.go:41-45 | A client's live frames are one contiguous segment of the single publish order, from its add to its remove |
| `LiveFlow.SnapshotHoldsExactly` | ws.go:79-85 | Exactly which earlier flows a snapshot holds |
| `LiveFlow.StepKeepsWorld` | app.go:77-82 | Every step of any participant keeps the protocol invariant |
| `LiveFlow.ReachableWorldsAreOk` | hub.go:20-46 | The invariant in every reachable state |
| `LiveFlow.OrdersGrow` | hub.go:41-45 | The publish order and the registry history only grow |
| `Rules.FirstMatch` | rules.go:111-125 | A result is a stored matching rule; no result means that no rule matches |
| `Rules.StoredRulesAreComplete` | rules.go:48-75 | Over any run of edits every stored rule has a non-empty id and action |
| `Rules.EditLeaves` | rules.go:48-91 | An edit stores what it was sent, field by field, with an id and the action mock filled in where empty: a new list in its order, a rule behind the others, or all but one id in the same order |
| `Rules.RewriteInAnyCase` | rules.go:128-131 | A rewrite is a rule whose action is that word in any case |
| `Rules.AppendedRuleComesLast` | rules.go:64-75 | Appending a rule decides only requests that matched nothing before |
| `Rules.DeletingOtherIdKeepsOutcome` | rules.go:77-91 | Deleting an id changes the outcome of a request exactly when the winner has that id |
| `Rules.CoversExactly` | rules.go:113-121 | A test on two rules alone is equivalent to the inclusion of everything they match, `*` patterns and case folding included |
| `Rules.CoveredRuleIsIdle` | rules.go:111-126 | A rule covered by an earlier one can go without changing any outcome |
| `RuleEngine.Engine.Set` | rules.go:48-62 | A fresh array with the ids and actions filled in |
| `RuleEngine.Engine.Add` | rules.go:64-75 | append, in place while there is capacity |
| `RuleEngine.Engine.Delete` | rules.go:77-91 | The filter that writes into the array it reads equals the order-preserving filter, and returns true exactly when some rule had the id |
| `RuleEngine.FilterInPlace` | rules.go:80-88 | The loop alone: the kept places are the filtered list, though they are written into the array that is still being read |
| `RuleEngine.Engine.All` | rules.go:99-103 | Hands out a fresh copy |
| `RuleEngine.Engine.MatchRule` | rules.go:105-126 | The scan of the copy finds the first matching rule |
| `RuleEngine.Engine.Match` | rules.go:128-134 | The response rendered from the first rule matching the host, path and method, and none for a rewrite |
| `RuleEngine.EditRun` | rules.go:48-103 | Over any run of edits a list handed out before never changes |
| `OnRequest.OneListExplains` | app.go:62-75 | Two lookups on two lists decide like one of these lists alone, except exactly when the host is mocked, the first lookup finds a mock and the second one a rewrite |
| `OnRequest.TornDecisionExists` | app.go:62-75 | A run of the machine (arrive, two steps, a rule edit, a last step) after which the request is neither answered nor rewritten, though each list alone would do one of them |
| `OnRequest.StepKeepsWorld` | app.go:62-75 | Every lock region and every edit keeps what waiting requests rely on |
| `OnRequest.ReachableWorldsAreOk` | app.go:62-75 | That invariant in every reachable state |
| `OnRequest.FinishedRequests` | app.go:62-75 | An answer is given only if the state read was MOCKED, and from the first matching, non-rewrite rule of a real list no older than the first lookup's; without an edit in between it is the single-lookup decision |
| `OnRequest.EditsAreSeen` | app.go:62-75 | From any state, a request that runs alone after edits meets the decision of the edited states and rules |
| `App.Application.OnConnect` | app.go:52-60 | Counts the connection and decides by the state from before it |
| `App.Application.OnRequest` | app.go:62-75 | Run alone, the three steps give the single-lookup decision: untouched, rewritten in place, or answered |
| `App.Application.OnFlow` | app.go:77-82 | Run alone, the flow enters its ring and every client gets one whole frame |
| `Markers.FirstMarkIsLeftmost` | rules.go:215 | The one-pass scanner finds the leftmost match of `{{script:\s*(.*?)}}` with the split that a greedy, then lazy, matcher prefers, and none exactly when there is no match |
| `Markers.ScanIsPreferred` | rules.go:215 | At one position the scan succeeds exactly when the expression matches there |
| `Markers.LongestRunMatches` | rules.go:215 | Giving whitespace back to the lazy star never helps |
| `Markers.PreferredIsUnique` | rules.go:215 | The preferred split, and so the group, is determined |
| `Markers.RematchGivesSameGroup` | rules.go:226 | Matching the matched text again gives the whole text and the same group |
| `Markers.ReplaceIsOutput` | rules.go:225-234 | The output is the gaps of the text with each marker's value, or its own text, in its place |
| `Markers.PiecesAreTheText` | rules.go:225-234 | Gaps and markers together are the input |
| `Markers.FailedScriptsChangeNothing` | rules.go:230-233 | If every evaluation fails the stage returns its input |
| `Rewrite.BodyIsEvaluated` | rules.go:217-237 | Success and failure alike: a program is replaced by what it returns, other text has its markers replaced by their values; then text without double braces is used as it is, and other text is the template's value on its dotted form, or that form |
| `Rewrite.JsonValueIsEvaluated` | rules.go:239-248 | A value with = in front is the value of that expression, or itself if it fails; any other is evaluated as a text |
| `Rewrite.MarkerIsEvaluated` | rules.go:225-234 | A text of one marker whose expression is worth 2 comes out as 2 |
| `Rewrite.MockServes` | rules.go:186-213 | A mock serves its evaluated script or body, with its length, its status or 200, its type or JSON |
| `Rewrite.RewriteSends` | rules.go:136-177 | A rewrite sends the evaluated script or body, the written object, or what was read if that cannot be written |
| `Rewrite.MergedHolds` | rules.go:150-164 | The object written has the evaluated values as texts at the rule's keys and the old ones elsewhere |
| `Rewrite.NoBodyIsEmpty` | rules.go:152-161 | A request without a body, or whose body is no object, is merged as the empty object |
| `Replacer.PassIsDotted` | rules.go:400 | The single pass replaces every occurrence: it equals inserting a dot at each, character by character |
| `Replacer.ShortForms` | rules.go:400 | The occurrences are those of {{path}}, {{host}} and {{query. |
| `Replacer.OccurrencesDoNotOverlap` | rules.go:400 | Occurrences never overlap |
| `Replacer.LengthGrowsByOccurrences` | rules.go:400 | The output is longer by exactly the number of occurrences |
| `Replacer.PassIsClean` | rules.go:400 | The output holds none of the three patterns, not even across a seam of copied and replaced text |
| `Replacer.PassFixes` | rules.go:400 | The pass leaves a text alone exactly when it holds none of the patterns |
| `Replacer.PassIsIdempotent` | rules.go:400 | A second pass changes nothing |
| `Rewrite.PlainTextIsKept` | rules.go:219-237 | A text without `{{` is used as it is, whatever scripts and templates do |
| `Rewrite.StaticRulesAreLiteral` | rules.go:186-213 | Without script and braces a mock serves its body to the letter and a body rewrite sends its body to the letter, with the right length, whatever the interpreter does |
| `Rewrite.FailuresKeepTheTextExactlyWhenClean` | rules.go:217-237 | If the scripts in this text fail, or it is a whole program and fails, and its template fails, it is used as it is exactly when it has no short form |
| `Rewrite.FailedTemplateKeepsExactlyWhenClean` | rules.go:391-413 | The template stage alone: a text whose template fails comes out as its short forms expanded, so unchanged exactly when it has none |
| `Rewrite.ShortFormStaysExpanded` | rules.go:400-410 | A text whose last action has no end: if its template does not parse, it comes out expanded |
| `Rewrite.Merge` | rules.go:162-164 | In any iteration order the loop gives the object with exactly the rule's keys replaced by their evaluated strings |
| `Rewrite.ApplyRewrite` | rules.go:136-177 | The request changed in place: body, length, replay and header on each of the four paths |
| `Rewrite.AgreesExactlyWhenWritten` | rules.go:136-177 | After a rewrite ContentLength, body and GetBody agree exactly when the object could be marshalled or GetBody already replayed what was read |
| `Rewrite.AgreesAlways` | rules.go:136-177 | With a codec that can write every object it has read with texts put in, every rewritten request agrees with itself |
| `Rewrite.MergedReadsBack` | rules.go:158-176 | If the codec reads back the one object it writes here, decoding the new body gives the rule's values at the rule's keys and the old values elsewhere |
| `Rewrite.OwnKeysSurviveExactlyWhenItFits` | rules.go:155 | Where the object of the body ends after m bytes, blanks or nothing behind it, its own keys survive if and only if m is at most 2^20 or the rule sets them all; past the limit only the rule's keys remain |
| `Rewrite.OversizedBodyLosesItsKey` | rules.go:155 | A JSON text of 2^20+1 bytes with one key: any codec that takes it for an object ending with its last byte loses the key, unless the rule sets it |
| `Rewrite.RewritingTwice` | rules.go:150-176 | If the object written is read back, whole, the same rewrite a second time changes nothing |
| `Socks.HandshakeReadsBack` | proxy.go:116-194 | Every greeting and CONNECT request, followed by anything, opens a tunnel to its address and port and leaves exactly the bytes after it |
| `Socks.TunnelMeansHandshake` | proxy.go:116-194 | Only an encoded handshake opens a tunnel; every other stream ends closed |
| `Socks.TunnelByBytes` | proxy.go:116-194 | A tunnel by the bytes alone: version, command, address by its type, port, and the replies sent |
| `Socks.DestinationText` | proxy.go:189-190 | The destination is the host, in brackets if it has a colon, a colon and the port in plain digits |
| `Socks.OneHandshake` | proxy.go:116-194 | A stream begins with at most one handshake |
| `Socks.CutHandshakeIsClosed` | proxy.go:123-188 | A handshake cut off anywhere is closed without tunnel or refusal, answered once if its greeting was complete |
| `Socks.RefusedExactly` | proxy.go:146-182 | Exactly which requests get the command refusal and which the address-type refusal, in that order of precedence |
| `Socks.MethodIsRightExactlyWhenOffered` | proxy.go:132-140 | The method answered is the one section 3 of RFC 1928 asks of a server without authentication, if and only if the client offered it |
| `Socks.UnofferedMethodExists` | proxy.go:132-140 | A client that offers a password only is told a method it did not offer, and gets its tunnel |
| `Socks.DestinationSplits` | proxy.go:189-190 | Splitting the destination gives back host text and port exactly for hosts without brackets |
| `SocksIo.HandleSocks5` | proxy.go:116-194 | The sequential reads and interleaved replies write, close, and hand on exactly what the parser says |
| `HostPort.SplitsExactlyWhatIsDenoted` | proxy.go:93-99 | Splitting succeeds with host and port exactly on the texts that denote them |
| `HostPort.SplitsBackExactlyWhenBracketless` | proxy.go:190 | Joining, then splitting or stripping, gives the host back if and only if it has no brackets, colons or not |
| `HostPort.BareHostIsKept` | proxy.go:93-99 | stripHostPort leaves a host with no colon, or a bare one with several, alone |
| `HostPort.DecimalReadsBack` | proxy.go:190 | The decimal port is read back |

## Left out

- Text is bytes: `strings.ToLower`, `strings.EqualFold` and `strings.TrimSpace` are modelled on ASCII.
- Impersonate: host names and SNI names have fewer than 256 bytes, so the fixed buffers never cut them; the lifetime of a returned chain, which another thread may free, is not modelled.
- ImpersonateReload: the two questions that one lookup asks are answered by one served policy, and the PEM directory does not change.
- LiveFlow: safety only, no deadlock or liveness; socket writes succeed, as do file writes everywhere.
- Registry: the 64-bit hit counter does not wrap.
- SslKit: the saved `sslkit.json` is not rendered, and an unreadable or oversized PEM file is one case.
- PolicyAgreement: names are legal, and pin and verify values are free of upper-case letters, blanks and newlines, as the user interface offers them; `PolicyNames` asks of names only that they are map keys, and of the by-host lines that they set nothing but their own keys.
- PolicyRaces: one assignment to a buffer is one step, not its bytes, and a reader takes the whole list at once; a host is asked of the kit gate only; `PolicyOverlap` leaves out keylog, whose last line depends on what another load may have written.
- Rewrite: reading a body does not fail halfway; the query, path, host and method that scripts see are fixed, because no rewrite changes them; the scripts' clock is part of the evaluator.
- Socks: the textual form of IP addresses is a parameter, and the tunnel itself is not modelled.
- HostPort: Go's `net` package is not in the repository; its splitting is modelled as documented there.
- Starlark execution with its step and time limits, `text/template`, the JSON, PEM and X.509 codecs, SHA-1, `wsAccept` and the upgrade handshake: library behaviour.
- TLS termination, dialling and redirects: the engine is not part of this model.
- `admin.go`, `mcp.go`, `main.go`, `config.go`, `embed.go` and the pin-bypass flag: routing and small wrappers over the operations modelled here.
- Authentication, certificate trust installation, source patching scripts and the user interface.
- Plain HTTP proxying and the accept loops.

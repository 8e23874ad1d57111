# PRRTE: TM daemon launch, DSS payload transfer, IPv6 interface discovery

This project models three pieces of sequential logic of the PRRTE runtime and
proves properties of them in Dafny.

- **The TM (PBS/Torque) launcher** (`plm_tm.dfy`, `plm_tm_env.dfy`). This
  covers the plm component's init, launch_job, connect and finalize
  functions. It also covers its two state handlers:
  - `launch_daemons` spawns one daemon per pending node through `tm_spawn`;
  - `poll_spawns` polls the spawns with `tm_poll`.

  The TM library is an oracle: the reply to the k-th call of each kind is a
  fixed function of k, and every call is logged. The static `launched` and
  `connected` variables are fields of the `TmModule` class. The state
  machine is a log of activated states. The request object the handlers
  receive is a reference-counted `Caddy`, which also counts the reads of
  its job made after its last reference is gone.
  `plm_tm_env.dfy` builds the daemons' environment:
  - the decimal rank token;
  - the octal umask;
  - `prte_setenv`;
  - the loop that prefixes PATH and LD_LIBRARY_PATH.
- **DSS buffers and values** (`dss_buffer.dfy`, `dss_value.dfy`).
  - A buffer is a class over a byte region with unpack and pack offsets.
    Unload, load and copy_payload are methods proved against specification
    functions on buffer snapshots.
  - A value is a class holding a key, a type tag and its union. The union
    is the member last written, and reading another member is kept
    symbolic.
- **IPv6 interface discovery** (`if_bsdx_ipv6.dfy`). The sequence of
  getifaddrs records is filtered by the open function's rule, and an entry
  per kept record is appended to the interface list.

Two behaviours of the TM launcher are modelled as the code has them:
- `launched` is never reset. Each round's writes land at index `launched`
  of arrays with `num_new_daemons` entries, so the spawn round requires that
  every attempt fits (`SpawnIndicesFit`). `SecondRoundDoesNotFit` shows that
  when a map has exactly `num_new_daemons` pending nodes and every one of
  their spawns succeeds, the round fits only when `launched` is 0, so a
  later round of that shape after any earlier spawn does not fit.
- On failure, `poll_spawns` reads the job from the request object after
  releasing it (see Findings).

## Model

| member | source | states |
|---|---|---|
| PlmTmEnv.RankStringParses | src/mca/plm/tm/plm_tm_module.c:376-382 | the rank token written into the vpid slot is all decimal digits and reads back as the daemon's rank |
| PlmTmEnv.RankStringInjective | src/mca/plm/tm/plm_tm_module.c:376-382 | two daemons get the same vpid token iff they have the same rank |
| PlmTmEnv.UmaskString | src/mca/plm/tm/plm_tm_module.c:312-315 | the umask text is "0" followed by octal digits that read back as the umask |
| PlmTmEnv.EntryExclusive | src/mca/plm/tm/plm_tm_module.c:331-343 | an entry matching the "NAME=" prefix test for one valid name matches it for no other |
| PlmTmEnv.SetEnvLookupSame | src/mca/plm/tm/plm_tm_module.c:308-315 | after prte_setenv (as modelled), the variable reads back as the value set |
| PlmTmEnv.SetEnvLookupOther | src/mca/plm/tm/plm_tm_module.c:308-315 | prte_setenv leaves every other valid variable reading as before |
| PlmTmEnv.RewritePrefix | src/mca/plm/tm/plm_tm_module.c:329-353 | the in-place loop over the copied environment yields exactly PrefixRewritten, the entry-by-entry description of the loop's effect |
| PlmTmEnv.PrefixRewriteKeepsKinds | src/mca/plm/tm/plm_tm_module.c:329-353 | the loop keeps the number of entries and which variable each entry belongs to, so no PATH is created where there was none |
| PlmTmEnv.PrefixRewriteKeepsOthers | src/mca/plm/tm/plm_tm_module.c:329-353 | entries other than PATH and LD_LIBRARY_PATH are unchanged |
| PlmTmEnv.PrefixRewriteSinglePath | src/mca/plm/tm/plm_tm_module.c:331-340 | a sole PATH entry becomes PATH=prefix/bin_base:old |
| PlmTmEnv.PrefixRewriteSingleLd | src/mca/plm/tm/plm_tm_module.c:343-352 | a sole LD_LIBRARY_PATH entry becomes LD_LIBRARY_PATH=prefix/lib_base:old |
| PlmTmEnv.PrefixRewriteDuplicatePath | src/mca/plm/tm/plm_tm_module.c:329-340 | with two PATH entries, the first receives the prefixed value of the second, and the second keeps its old text |
| PlmTmEnv.PrefixRewriteLookupOther | src/mca/plm/tm/plm_tm_module.c:329-353 | every other valid variable reads the same after the loop |
| PlmTmEnv.PrefixRewriteExample | src/mca/plm/tm/plm_tm_module.c:329-340 | PATH=/u with prefix /p becomes PATH=/p/bin:/u, and HOME is untouched |
| PlmTmEnv.DaemonEnvUmask | src/mca/plm/tm/plm_tm_module.c:311-316 | the daemons see PRTE_DAEMON_UMASK_VALUE set to the octal umask, with or without a prefix |
| PlmTmEnv.DaemonEnvRsh | src/mca/plm/tm/plm_tm_module.c:304-309 | the daemons see the plm selection variable set to "rsh" |
| PlmTmEnv.DaemonEnvKeepsOthers | src/mca/plm/tm/plm_tm_module.c:304-353 | every variable other than the plm selection variable and the umask variable reaches the daemons unchanged; with a prefix set, PATH and LD_LIBRARY_PATH are excluded as well |
| PlmTm.TmModule.PlmInit | src/mca/plm/tm/plm_tm_module.c:123-151 | the daemon-nodes-at-launch flag is set; the two handlers are registered in order, stopping at and returning the first failure |
| PlmTm.TmModule.LaunchJob | src/mca/plm/tm/plm_tm_module.c:154-164 | a RESTART job activates MAP, any other job activates INIT, and the result is success |
| PlmTm.ConnectAttemptsFrom | src/mca/plm/tm/plm_tm_module.c:524-537 | the connect count is bounded by 10; every attempt before the last failed; the last succeeded unless all 10 were spent |
| PlmTm.TmModule.Connect | src/mca/plm/tm/plm_tm_module.c:515-540 | the retry loop makes exactly ConnectAttempts tm_init calls and returns success iff the last of them succeeded, otherwise RESOURCE_BUSY |
| PlmTm.ConnectSucceedsIff | src/mca/plm/tm/plm_tm_module.c:524-539 | connecting succeeds iff one of the next 10 tm_init calls succeeds |
| PlmTm.ConnectAttemptsAfter | src/mca/plm/tm/plm_tm_module.c:524-539 | after n failures, a success at attempt n + 1 ends the loop there; 10 failures end it with RESOURCE_BUSY |
| PlmTm.ConnectAfterThreeFailures | src/mca/plm/tm/plm_tm_module.c:524-537 | three busy replies and then a success make four attempts and connect |
| PlmTm.ConnectAllBusy | src/mca/plm/tm/plm_tm_module.c:524-539 | ten busy replies spend all ten attempts and fail |
| PlmTm.TmModule.PlmFinalize | src/mca/plm/tm/plm_tm_module.c:497-512 | tm_finalize is called only when connected; the flag is then clear, so a second call finalizes nothing |
| PlmTm.Eligible | src/mca/plm/tm/plm_tm_module.c:361-368 | the slots the node loop spawns for are present nodes without DAEMON_LAUNCHED, in index order |
| PlmTm.EligibleIff | src/mca/plm/tm/plm_tm_module.c:361-368 | a slot is in Eligible(nodes) iff it is a slot of nodes that is pending |
| PlmTm.EligibleAllPending | src/mca/plm/tm/plm_tm_module.c:361-368 | when every slot is pending, Eligible keeps them all, in order |
| PlmTm.EligibleNonePending | src/mca/plm/tm/plm_tm_module.c:361-368 | when no slot is pending, the loop spawns nothing |
| PlmTm.FailIndexFrom | src/mca/plm/tm/plm_tm_module.c:395-406 | the first pending node that has no launch id or whose tm_spawn is rejected; every node before it spawned successfully |
| PlmTm.AttemptsAt | src/mca/plm/tm/plm_tm_module.c:395-406 | a missing launch id fails before tm_spawn; a rejected spawn fails after it; either way no later node is attempted |
| PlmTm.SpawnLogEntries | src/mca/plm/tm/plm_tm_module.c:361-408 | the round's spawn log keeps earlier requests and holds, in order, one request for each pending node up to the failure |
| PlmTm.RequestsDifferOnlyInVpid | src/mca/plm/tm/plm_tm_module.c:376-401 | two nodes' spawn requests have the same argv except the vpid slot, which carries each node's rank (so different ranks give different argvs) and the same env |
| PlmTm.SecondRoundDoesNotFit | src/mca/plm/tm/plm_tm_module.c:401-408 | because launched is never reset, a round over a fully pending, fully successful map fits the arrays only when launched is 0 |
| PlmTm.TmModule.SpawnNode | src/mca/plm/tm/plm_tm_module.c:375-408 | a node gets a spawn only with a launch id; launched rises by one iff that spawn succeeds; with a launch id, the spawn call's number is stored at slot old launched of both the task-id and the event array, and no other slot changes; without one, neither array changes |
| PlmTm.TmModule.AttemptNode | src/mca/plm/tm/plm_tm_module.c:375-408 | one pending node moves the round's log, counter and arrays from e attempts to e + 1 when its spawn succeeds, and to all of the round's attempts when it fails |
| PlmTm.TmModule.SpawnLoop | src/mca/plm/tm/plm_tm_module.c:360-409 | the node loop issues the requests of SpawnLog, adds to launched the number of successful spawns, and succeeds iff every pending node spawned; attempt j stores call number k0 + j at slot old launched + j of both arrays (Stamped), and every other slot keeps its value |
| PlmTm.TmModule.LaunchDaemonsRound | src/mca/plm/tm/plm_tm_module.c:170-430 | the three short circuits, the early error exits, connect-on-demand, the spawn round and its outcome; the request is released exactly once on every path |
| PlmTm.TmModule.ConnectAndSpawn | src/mca/plm/tm/plm_tm_module.c:282-429 | connects only when not yet connected; a connect failure activates FAILED_TO_START and spawns nothing |
| PlmTm.TmModule.SpawnRound | src/mca/plm/tm/plm_tm_module.c:252-429 | both jobs become DAEMONS_LAUNCHED iff every spawn went through; otherwise FAILED_TO_START is activated on the daemons job |
| PlmTm.TmModule.ReportLaunched | src/mca/plm/tm/plm_tm_module.c:201-206 | a short circuit marks the job DAEMONS_LAUNCHED, activates DAEMONS_REPORTED and releases the request once |
| PlmTm.TmModule.DaemonEnvironment | src/mca/plm/tm/plm_tm_module.c:303-355 | the environment built for the spawns is DaemonEnv of the launch environment |
| PlmTm.TmModule.Cleanup | src/mca/plm/tm/plm_tm_module.c:422-429 | releases the request once, then activates FAILED_TO_START on the daemons job iff the launch failed |
| PlmTm.TmModule.PollRound | src/mca/plm/tm/plm_tm_module.c:443-453 | at most n tm_poll calls, stopping right after the first failed call or local error |
| PlmTm.PollFailsIff | src/mca/plm/tm/plm_tm_module.c:443-453 | the polling round fails iff one of its polls fails |
| PlmTm.PollFailAt | src/mca/plm/tm/plm_tm_module.c:443-453 | the round stops at the first failed poll |
| PlmTm.TmModule.PollSpawns | src/mca/plm/tm/plm_tm_module.c:432-464 | polls up to launched times; on failure it activates FAILED_TO_START and reads the job from the released request; on success it activates nothing |
| PlmTm.TmModule.PollSpawnsReadFirst | src/mca/plm/tm/plm_tm_module.c:456-463 | the same polls and activations with no read after release |
| PlmTm.PollFailureAfterRelease | src/mca/plm/tm/plm_tm_module.c:456-463 | one failing poll with a single reference: exactly one read after free as written, none when corrected |
| PlmTm.Caddy.Job | src/mca/plm/tm/plm_tm_module.c:458-462 | a read of the request's job is counted as after free when no reference remains |
| DssBuffer.UnloadReturnsSuffix | src/dss/dss_load_unload.c:47-73 | unload hands back exactly the bytes between the unpack offset and bytes_used, counted, NULL when there are none |
| DssBuffer.UnloadWhole | src/dss/dss_load_unload.c:56-62 | with nothing unpacked, unload hands back the whole packed region and leaves the buffer empty |
| DssBuffer.LoadUnloadRoundTrip | src/dss/dss_load_unload.c:101-108 | unloading a buffer just loaded with a non-empty payload returns that payload and its length |
| DssBuffer.LoadEmptyPayloadKeepsBase | src/dss/dss_load_unload.c:47-51 | a zero-length load keeps a base; unloading it returns NULL and leaves the buffer as it is |
| DssBuffer.CopyAppendsSuffix | src/dss/dss_load_unload.c:151-168 | a copy appends the source's unpacked bytes to the destination's packed and unpacked bytes, keeps its unpack offset and takes the source's type |
| DssBuffer.CopyFailureKeepsBytes | src/dss/dss_load_unload.c:133-160 | a refused or failed copy changes at most the destination's type; ERR_BUFFER happens iff a populated destination has another type |
| DssBuffer.CopyThenUnload | src/dss/dss_load_unload.c:120-171 | copying into an empty buffer and unloading it returns the source's unpacked bytes |
| DssBuffer.OperationsKeepWellFormed | src/dss/dss_load_unload.c:33-171 | unload, load and copy_payload all keep the buffer's bookkeeping consistent |
| DssBuffer.Buffer.Extend | src/dss/dss_load_unload.c:159-161 | extending gives room for k more bytes and keeps the packed bytes and cursors |
| DssBuffer.Unload | src/dss/dss_load_unload.c:33-80 | a NULL buffer or destination gives BAD_PARAM and changes nothing; otherwise the payload and new buffer are UnloadSpec's |
| DssBuffer.Load | src/dss/dss_load_unload.c:83-113 | a NULL buffer gives BAD_PARAM; otherwise the buffer becomes LoadSpec of the payload |
| DssBuffer.CopyPayload | src/dss/dss_load_unload.c:120-171 | NULL buffers give BAD_PARAM with nothing changed; otherwise status and destination are CopySpec's |
| DssValue.CopyByteObject | src/dss/dss_load_unload.c:247-254 | the deep copy holds the first size bytes, or is NULL with size 0 when the pointer is NULL or the size not positive |
| DssValue.CopyByteObjectIdempotent | src/dss/dss_load_unload.c:247-254 | copying a copy changes nothing |
| DssValue.ZeroOf | src/dss/dss_load_unload.c:180-183 | a memset union reads through any known member as that member's zero |
| DssValue.MemberOf | src/dss/dss_load_unload.c:292-372 | reading the union through the member last written gives it back, and any read yields a datum of that member |
| DssValue.Loaded | src/dss/dss_load_unload.c:179-274 | load sets the type whatever follows and leaves the key alone |
| DssValue.LoadUnloadRoundTrip | src/dss/dss_load_unload.c:173-379 | load then unload with the same supported type returns what was stored: the value, a normalised byte object, or the zero for NULL |
| DssValue.LoadNotSupported | src/dss/dss_load_unload.c:271-273 | an unsupported type (VPID included) gives NOT_SUPPORTED after the type is already set, with the data untouched |
| DssValue.NullVpidLoads | src/dss/dss_load_unload.c:180-183 | a NULL pointer zeroes the union before the type switch, so loading NULL as VPID succeeds and unloads as 0 |
| DssValue.UnloadErrors | src/dss/dss_load_unload.c:283-290 | TYPE_MISMATCH iff the type differs, BAD_PARAM iff a destination is missing, success iff neither and the type is known |
| DssValue.XferPreservesUnload | src/dss/dss_load_unload.c:386-479 | after xfer, unloading the destination gives what unloading the source gives, for every type load knows |
| DssValue.XferKey | src/dss/dss_load_unload.c:386-388 | xfer copies the key only when the source has one |
| DssValue.KeyValue.Load | src/dss/dss_load_unload.c:173-276 | the object's new state and status are Loaded and LoadData of the old one |
| DssValue.KeyValue.Unload | src/dss/dss_load_unload.c:278-379 | status and output are UnloadSpec of the value, which is left unchanged |
| DssValue.KeyValue.Xfer | src/dss/dss_load_unload.c:381-480 | the destination becomes Xferred of both values, with NOT_SUPPORTED for types load does not know |
| DssValue.LoadUnloadString | src/dss/dss_load_unload.c:193-305 | a string loaded into a value object unloads as the same string |
| IfBsdxIpv6.TruncatedName | src/mca/prteif/bsdx_ipv6/if_bsdx_ipv6.c:179 | the copied name is a prefix of the interface name, shorter than PMIX_IF_NAMESIZE, and the whole name when it fits |
| IfBsdxIpv6.Selected | src/mca/prteif/bsdx_ipv6/if_bsdx_ipv6.c:111-159 | every kept record is IPv6, up, not point-to-point, not link-local, and not loopback unless loopback is retained |
| IfBsdxIpv6.SelectedIff | src/mca/prteif/bsdx_ipv6/if_bsdx_ipv6.c:111-159 | a record is kept iff it is in the input and passes all five tests |
| IfBsdxIpv6.NewEntriesAt | src/mca/prteif/bsdx_ipv6/if_bsdx_ipv6.c:178-199 | the j-th new entry comes from the j-th kept record, numbered by the list size at its append |
| IfBsdxIpv6.AppendedEntries | src/mca/prteif/bsdx_ipv6/if_bsdx_ipv6.c:180-199 | appending keeps the existing entries, adds one entry per record at the tail in order, and numbers them consecutively from the old size + 1 |
| IfBsdxIpv6.NewEntriesDescribeSelected | src/mca/prteif/bsdx_ipv6/if_bsdx_ipv6.c:170-198 | every new entry is IPv6 with the record's address and flags, scope 0, mask 64, the truncated name and index old size + 1 + position |
| IfBsdxIpv6.EntriesMade | src/mca/prteif/bsdx_ipv6/if_bsdx_ipv6.c:172-177 | a failing allocation stops the entries at the records before it |
| IfBsdxIpv6.ScanRecords | src/mca/prteif/bsdx_ipv6/if_bsdx_ipv6.c:106-200 | the loop appends the entries for the kept records up to a failing allocation, returning OUT_OF_RESOURCE iff one failed |
| IfBsdxIpv6.Open | src/mca/prteif/bsdx_ipv6/if_bsdx_ipv6.c:82-206 | with IPv6 disabled, success and no change; a getifaddrs failure gives ERROR and no change; otherwise the list is extended as ScanRecords says, and entries appended before a failed allocation stay |

## Findings

| source | as written | input that shows it | evidently intended | confidence | as-written member | corrected member |
|---|---|---|---|---|---|---|
| src/mca/plm/tm/plm_tm_module.c:458-462 | poll_spawns releases the request object and then reads `state->jdata` to activate FAILED_TO_START | one launched daemon whose tm_poll fails, with the request holding its only reference | take the job from the request before releasing it | high (not executed) | PlmTm.TmModule.PollSpawns | PlmTm.TmModule.PollSpawnsReadFirst |

The postcondition of `PlmTm.PollFailureAfterRelease` covers both handlers
on the input of the row. The handler as written makes one read after free,
and the corrected one makes none.

## Left out

- The TM library (tm_init, tm_spawn, tm_poll, tm_finalize) is foreign. It is an oracle of replies indexed by call number. tm_spawn's task id and event are the call's number.
- Event dispatch and job-state activation are a log of activations. The refcount macros are a counter with one release per PRTE_RELEASE.
- PlmTm.TmModule.SpawnNode: `launched` is an unbounded nat. The source's int32_t wrap-around is not modelled, because it would need 2^31 spawns.
- The malloc failures at plm_tm_module.c:253-264 are not modelled, and neither are the leaked tm_events/tm_task_ids arrays. dss_load_unload.c's mallocs are also assumed to succeed.
- prte_plm_base_setup_virtual_machine appears only as the boolean `vmOk`. setup_prted_cmd and prted_append_basic_args appear as the given argv and vpid index.
- The plm variable name from prte_mca_base_var_env_name, the umask value and the prte_basename results are inputs (LaunchContext).
- prte_plm_base_comm_start/comm_stop: their results are only logged in the source, so they are unused parameters here.
- plm_tm_terminate_orteds and plm_tm_signal_job only wrap helpers that are not part of this model, so they are left out.
- prte_util_convert_vpid_to_string's failure and the exit(-1) at plm_tm_module.c:379 are not modelled. The conversion is modelled as decimal rendering of the rank.
- The getenv/unsetenv calls at plm_tm_module.c:290-295 are left out. They change the process environment, not the copied `env` handed to the daemons.
- nanosleep, sched_yield, verbose output and show_help have no observable effect on the modelled state, so they are left out.
- prte_setenv's body is not part of this model. SetEnv assumes it overwrites the first NAME= entry in place and otherwise appends one.
- The argv slot is rewritten per node in the source. The model builds each node's argv from the shared argv with the vpid slot replaced. Only that slot changes, so the argv passed to tm_spawn is the same.
- PlmTm.TmModule.LaunchDaemonsRound requires at least one app context, as the source assumes at plm_tm_module.c:318-324. It also requires that every spawn attempt of the round fits the arrays (SpawnIndicesFit), a condition the loop relies on but does not check.
- prrte_dss_buffer_extend's growth policy is not part of this model. Buffer.Extend yields exactly the requested room past the used bytes.
- The int32 byte counts of the DSS buffer are unbounded naturals.
- PRRTE_FLOAT and PRRTE_PTR values are opaque copied values (a bit pattern, an address), with no floating-point semantics.
- Reading the union through another member is kept symbolic (Punned), not as a byte-level reinterpretation. Freeing the previous string or byte object is not modelled.
- DssValue.KeyValue.Xfer: a transfer of a STRING or BYTE_OBJECT value onto itself is excluded by its precondition, because the source frees the destination's string or byte object (src/dss/dss_load_unload.c:399-401, 448-450) and then copies from the same, already freed, pointer (402-403, 452-454); the model promises nothing for that call.
- DssValue.KeyValue.Load requires a non-NULL pointer of a supported type to designate a C value of that type (`Fits`). The source dereferences it unchecked.
- getifaddrs is an optional sequence of records, where None stands for failure. if_nametoindex is an input function, and the failing PMIX_NEW is an input count. inet_ntop output is left out.
- PRTE_ENABLE_IPV6 is the parameter `ipv6Enabled`.
- IfBsdxIpv6.ScanRecords builds the list's new contents in a local sequence that Open then stores. Nothing else reads the list meanwhile, so the appends are the same.
- IfBsdxIpv6.Open requires every IPv6 record to carry a 16-byte address, which is what sockaddr_in6 guarantees.

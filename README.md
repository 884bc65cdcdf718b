# CacheLib adapter of YCSB-cpp, modelled in Dafny

This project models the CacheLib binding of the YCSB-cpp benchmark and the
script that launches its experiments.

- **RowCodec** (`row_codec.dfy`) is the row format. A row is a sequence of (name,
  value) byte strings. Each pair is stored as a 4-byte little-endian length,
  the name, a 4-byte length and the value.
  - `SerializeRow` appends the encoding to a buffer.
  - `DeserializeRow` decodes a whole row and checks the pair count against
    the adapter's `fieldcount_`.
  - `DeserializeRowFilter` keeps the pairs whose names match the requested
    names in order. It stops once every name is matched.
- **TierConfig** (`tier_config.dfy`) is `Init`'s translation of the `cachelib.*`
  properties into a cache description: the cache size, the flash hierarchy
  and its kind per mode, the tiering parameters, BigHash and the thread
  counts. It includes `std::stoi` with its two exceptions and the `size_t`
  wrap-around of the byte sizes.
- **CachelibDb** (`cachelib_db.dfy`) is the adapter class.
  - The engine is the process-wide cache object, modelled as a map from key
    to stored row bytes.
  - `find`, `insertOrReplace`, `remove` and `scan` act on that map.
  - The five public operations dispatch through the member-function slots
    that `Init` binds.
- **RunExp** (`run_exp.dfy`) is the launcher script:
  - the configuration argument is expanded and validated;
  - the result paths are built;
  - one benchmark run and one device trim are issued per configuration.

  Running commands is recorded as a trace of printed lines and started
  commands. The exit status of each command is an environment function.

Each imperative source routine is a Dafny method proved equal to a pure
specification function:
- the loops in `SerializeRow`, the two deserializers and `main`;
- the updates of the engine and the slots.

Lemmas then prove what the source promises about those functions.

## Model

| member | source | states |
|---|---|---|
| RowCodec.DecodeU32 | cachelib/cachelib_db.cc:219 | a 4-byte length reads as a value below 2^32 |
| RowCodec.DecodeEncodeU32 | cachelib/cachelib_db.cc:200-201 | writing a 32-bit length and reading it back gives the length, in 4 bytes |
| RowCodec.EncodeDecodeU32 | cachelib/cachelib_db.cc:219 | every 4 bytes are the encoding of the length they denote |
| RowCodec.EncodeField | cachelib/cachelib_db.cc:200-205 | one pair takes 8 bytes plus its name and value |
| RowCodec.EncodeFieldExact | cachelib/cachelib_db.cc:200-205 | for a pair whose lengths fit 32 bits, the encoding is length, name, length, value with the true lengths |
| RowCodec.Encode | cachelib/cachelib_db.cc:196-207 | a row's encoding has the size of its pairs' encodings |
| RowCodec.EncodeAppend | cachelib/cachelib_db.cc:198-206 | encoding a concatenation is the concatenation of the encodings |
| RowCodec.ParseField | cachelib/cachelib_db.cc:241-250 | a pair that parses fits 32-bit lengths and the bytes consumed are exactly its encoding |
| RowCodec.ParseEncodedField | cachelib/cachelib_db.cc:241-250 | an encoded pair parses back to itself, whatever follows it |
| RowCodec.Decode | cachelib/cachelib_db.cc:240-251 | a successful decode yields a row of 32-bit-sized pairs whose encoding is the input |
| RowCodec.DecodeEncodedPrefix | cachelib/cachelib_db.cc:240-251 | decoding an encoded row followed by more bytes yields the row followed by the decode of the rest |
| RowCodec.DecodeEncode | cachelib/cachelib_db.cc:196-207 | decoding the encoding of a row of 32-bit-sized pairs gives the row back |
| RowCodec.DecodeIsInverseOfEncode | cachelib/cachelib_db.cc:196-251 | for such a row, a buffer decodes to it if and only if it is the row's encoding |
| RowCodec.PartialFieldUnparsed | cachelib/cachelib_db.cc:241-250 | no proper prefix of an encoded pair parses: one of the four reads runs out of bytes |
| RowCodec.PartialFieldRejected | cachelib/cachelib_db.cc:240-251 | a cut-off pair is rejected rather than read past the end |
| RowCodec.TruncatedRowRejected | cachelib/cachelib_db.cc:240-251 | a row whose last pair is cut off is rejected |
| RowCodec.DecodeFiltered | cachelib/cachelib_db.cc:216-231 | the kept pairs are at most as many as the requested names and their names are a prefix of the request |
| RowCodec.DecodeFilteredEncodedPrefix | cachelib/cachelib_db.cc:216-231 | the filter over an encoded row followed by any bytes is the row's merge, then the filter of the bytes after it against the names still unmatched |
| RowCodec.FilteredTruncatedRowRejected | cachelib/cachelib_db.cc:216-231 | a buffer that stops inside a pair while a requested name is unmatched is rejected by the filter too |
| RowCodec.DecodeFilteredSound | cachelib/cachelib_db.cc:216-231 | every successful filter comes from a well-formed prefix of the buffer and is the merge of its pairs; bytes after that prefix stay unread only once every name is matched |
| RowCodec.DecodeFilteredEncoded | cachelib/cachelib_db.cc:216-231 | on an encoded row the filter yields the in-order merge, and bytes after the last match are not read |
| RowCodec.MergeIsSubsequence | cachelib/cachelib_db.cc:227-230 | every kept pair is a stored pair, in storage order |
| RowCodec.MergeCompleteIffSubsequence | cachelib/cachelib_db.cc:216-232 | all requested names are matched if and only if they occur in the row in the requested order |
| RowCodec.ReorderedRequestIsIncomplete | cachelib/cachelib_db.cc:216-232 | asking for two stored names in reverse order matches only the first requested one, and the count check fails |
| RowCodec.DecodeRow | cachelib/cachelib_db.cc:235-254 | a successful full decode has fieldcount pairs: the caller's pairs, then a row whose encoding is the stored bytes |
| RowCodec.DecodeRowFiltered | cachelib/cachelib_db.cc:209-233 | a successful filtered decode has one pair per requested name: the caller's pairs, then pairs named by the first requested names in order |
| RowCodec.DecodeRowOfEncoding | cachelib/cachelib_db.cc:235-253 | a full decode appends the row after the caller's pairs when the count matches |
| RowCodec.DecodeRowFilteredOfEncoding | cachelib/cachelib_db.cc:209-233 | a filtered decode of an encoded row yields the merge exactly when the request is an in-order subsequence, and otherwise fails |
| RowCodec.SerializeRow | cachelib/cachelib_db.cc:196-207 | the buffer grows by exactly the row's encoding and keeps its old contents as a prefix |
| RowCodec.ReadField | cachelib/cachelib_db.cc:219-226 | the cursor step of both decoders reads the pair at the cursor |
| RowCodec.DeserializeRow | cachelib/cachelib_db.cc:235-254 | the decoding loop computes the full decode |
| RowCodec.DeserializeRowFilter | cachelib/cachelib_db.cc:209-233 | the filtering loop computes the filtered decode |
| TierConfig.UnreadPropertiesIgnored | cachelib/cachelib_db.cc:71-176 | Init reads only the ten cachelib.* properties: setting any other key changes neither the configuration nor the stoi error |
| TierConfig.ConversionsIgnoreOtherKeys | cachelib/cachelib_db.cc:82-165 | the six numeric conversions do not depend on keys outside the adapter's properties |
| TierConfig.AssembleIgnoresOtherKeys | cachelib/cachelib_db.cc:96-176 | the mode and device paths the configuration is assembled from do not depend on keys outside the adapter's properties |
| TierConfig.CountSpaces | cachelib/cachelib_db.cc:82 | stoi skips exactly the leading white space |
| TierConfig.CountDigits | cachelib/cachelib_db.cc:82 | stoi reads exactly the maximal run of digits |
| TierConfig.StoiOfRender | cachelib/cachelib_db.cc:82 | stoi reads back any 32-bit number written in decimal, after white space and before non-digits |
| TierConfig.StoiSkipsSpaces | cachelib/cachelib_db.cc:82 | leading white space does not change what stoi returns |
| TierConfig.StoiNeedsADigit | cachelib/cachelib_db.cc:82 | text without a digit is an invalid argument |
| TierConfig.StoiOfDecimal | cachelib/cachelib_db.cc:82 | the decimal spelling of a number up to INT_MAX converts to that number |
| TierConfig.DefaultsConvert | cachelib/cachelib_db.cc:25-53 | the six numeric defaults convert to 1024, 150, 100, 50, 128 and 64 |
| TierConfig.SizeTimes | cachelib/cachelib_db.cc:83 | a product in size_t is below 2^64 and exact when it fits |
| TierConfig.Conversions | cachelib/cachelib_db.cc:82-165 | one conversion per numeric property |
| TierConfig.Collect | cachelib/cachelib_db.cc:82-165 | when every conversion succeeds there is one value per property |
| TierConfig.CollectFirstFailure | cachelib/cachelib_db.cc:82-165 | reading succeeds if and only if every conversion does; the values are the converted numbers; otherwise the error is the first failing property's |
| TierConfig.ReadNumbersFailsAtFirstBadProperty | cachelib/cachelib_db.cc:82-165 | Init fails with the error of the first numeric property that stoi rejects |
| TierConfig.ModeSelectsHierarchy | cachelib/cachelib_db.cc:96-137 | the four modes, and only they, set a hierarchy of the capacity device then the performance device with their sizes, of kind raid, tiering or caching |
| TierConfig.ModeSelectsTiering | cachelib/cachelib_db.cc:110-137 | tiering and most get the tiering parameters (migrate rate 100 MiB, hot threshold 4, cooling threshold 200, hot-block region size 100000 MiB, offload ratio max 100 and min 0), with hot-block tuning only in most; caching gets the caching_write_mode property (default "wb"); tiering, most and caching set the tiering page size to 2048 KiB |
| TierConfig.BigHashIgnoresMode | cachelib/cachelib_db.cc:144-161 | BigHash is configured exactly when the percentage is positive, identically in every mode, with that percentage, a bucket size of 4096, a bucket Bloom filter size of 8 and a small-item maximum of 2048 |
| TierConfig.CacheSizeInBytes | cachelib/cachelib_db.cc:82-83 | the cache size is the property times 1 MiB, wrapped into size_t when negative |
| TierConfig.DefaultNumbers | cachelib/cachelib_db.cc:25-53 | with none of the adapter's properties set the numbers are the defaults |
| TierConfig.DefaultConfig | cachelib/cachelib_db.cc:71-190 | with no properties the cache has 1 GiB of memory and a raid hierarchy of nvme0 (150 GiB) and optane0 (100 GiB), with BigHash at 50 percent and 128 readers and 64 writers |
| CachelibDb.FindSpec | cachelib/cachelib_db.cc:256-271 | find is NotFound with the vector untouched exactly when the key is missing, never throws, and on success appends to the caller's pairs |
| CachelibDb.UpsertSpec | cachelib/cachelib_db.cc:273-286 | insertOrReplace succeeds exactly when the engine allocates; it then maps the key to the row's encoding, and it never changes another key's row |
| CachelibDb.RemoveSpec | cachelib/cachelib_db.cc:288-298 | remove succeeds exactly when the key is present; afterwards the key is gone and every other row is as it was |
| CachelibDb.ReadYourWrite | cachelib/cachelib_db.cc:256-286 | after a successful put, an unfiltered read returns the caller's pairs followed by the row |
| CachelibDb.ReadYourWriteIffWellSized | cachelib/cachelib_db.cc:196-286 | a row put then read comes back exactly if and only if all its names and values are shorter than 2^32 bytes |
| CachelibDb.ReadChecksFieldCount | cachelib/cachelib_db.cc:253 | a row with a count other than fieldcount_ aborts an unfiltered read |
| CachelibDb.FilteredReadOfWrite | cachelib/cachelib_db.cc:256-271 | a filtered read of a stored row returns the in-order merge, or aborts when the names are not an in-order subsequence |
| CachelibDb.FailedPutChangesNothing | cachelib/cachelib_db.cc:278-280 | a failed allocation throws the put error and changes no item |
| CachelibDb.OtherKeysUnchanged | cachelib/cachelib_db.cc:273-298 | put and delete leave every other key's read unchanged |
| CachelibDb.DeleteThenRead | cachelib/cachelib_db.cc:288-298 | after a delete the key reads as not found, and the delete succeeds exactly when the key was present |
| CachelibDb.DeleteTwiceThrows | cachelib/cachelib_db.cc:288-298 | a second delete of the same key throws |
| CachelibDb.PutThenDelete | cachelib/cachelib_db.cc:273-298 | a put then a delete of the same key leaves the other items as they were and the key absent |
| CachelibDb.GlobalCache.constructor | cachelib/cachelib_db.cc:66 | the process-wide engine starts absent and empty |
| CachelibDb.CachelibDB.constructor | cachelib/cachelib_db.h:24 | a new adapter has no bound slot, and fieldcount_ is whatever it is given |
| CachelibDb.CachelibDB.Init | cachelib/cachelib_db.cc:71-190 | Init fails exactly when building the configuration does, then changes nothing; otherwise it installs that configuration in a new, empty engine and binds every slot |
| CachelibDb.CachelibDB.Install | cachelib/cachelib_db.cc:177-187 | the engine gets the configuration and no items, and every slot is bound |
| CachelibDb.CachelibDB.Cleanup | cachelib/cachelib_db.cc:192-194 | Cleanup has an empty frame and body: it changes neither the adapter nor the shared engine |
| CachelibDb.CachelibDB.Find | cachelib/cachelib_db.cc:256-271 | find is a miss with the vector untouched, or the decode of the stored row appended to it |
| CachelibDb.CachelibDB.InsertOrReplace | cachelib/cachelib_db.cc:273-286 | the key maps to the row's encoding afterwards, or the put throws and nothing changes |
| CachelibDb.CachelibDB.Remove | cachelib/cachelib_db.cc:288-298 | the key is absent afterwards, and an absent key throws the delete error |
| CachelibDb.CachelibDB.ScanRange | cachelib/cachelib_db.cc:300-306 | scan always throws "Cachelib Scan not implemented" |
| CachelibDb.CachelibDB.Read | cachelib/cachelib_db.h:31-35 | Read behaves as find |
| CachelibDb.CachelibDB.Scan | cachelib/cachelib_db.h:37-41 | Scan never returns normally |
| CachelibDb.CachelibDB.Update | cachelib/cachelib_db.h:43-46 | Update behaves as insertOrReplace |
| CachelibDb.CachelibDB.Insert | cachelib/cachelib_db.h:48-51 | Insert behaves as insertOrReplace, so it has the same effect as Update |
| CachelibDb.CachelibDB.Delete | cachelib/cachelib_db.h:53-56 | Delete behaves as remove |
| CachelibDb.SecondInitDropsRows | cachelib/cachelib_db.cc:177 | with the default properties, a second adapter's Init replaces the shared engine, so a row the first adapter wrote reads as not found |
| RunExp.Split | run_exp.py:42 | splitting yields at least one piece, and no piece holds the separator |
| RunExp.JoinSplit | run_exp.py:42 | joining the pieces with commas gives back the argument, so order and empty pieces are kept |
| RunExp.SplitJoin | run_exp.py:42 | comma-free pieces joined with commas split back into the same pieces |
| RunExp.ExpandConfigs | run_exp.py:39-42 | "all" expands to most, tiering, caching and striping in that order; any other argument is split into comma-free pieces that join back to it |
| RunExp.FirstInvalid | run_exp.py:45-49 | none is found if and only if every configuration is valid; otherwise it finds the first invalid one |
| RunExp.InvalidMessageNamesConfig | run_exp.py:48 | the invalid-configuration message names the rejected configuration: different configurations give different messages |
| RunExp.ValidConfigsAreInitModes | run_exp.py:45 | the accepted configurations are exactly the modes for which Init sets a hierarchy |
| RunExp.ResultPathsDistinct | run_exp.py:16-17 | different configurations of one workload write to different result and error files |
| RunExp.ResultAndErrorDiffer | run_exp.py:16-17 | a result file is never an error file |
| RunExp.Commands | run_exp.py:4-10 | no command is started exactly when the trace holds no start action |
| RunExp.CommandTrace | run_exp.py:4-10 | run_command starts its command once, with its two output files, after a log line, and logs an error line exactly when the status is nonzero |
| RunExp.CommandsOfCommandTrace | run_exp.py:4-10 | run_command starts its command once, whatever the exit status |
| RunExp.PlannedCommands | run_exp.py:26-29 | two commands are planned per configuration |
| RunExp.MainRunsEveryConfig | run_exp.py:26-29 | main starts, whatever the exit statuses, the workload command then the trim for each configuration in list order |
| RunExp.Shell.RunCommand | run_exp.py:4-10 | run_command announces the command, starts it with its two output files, reports a nonzero status and returns it |
| RunExp.RunWorkload | run_exp.py:12-20 | run_workload runs the ycsb command for the workload and configuration, with output to the result and error files |
| RunExp.TrimDevice | run_exp.py:22-24 | trim_device runs the trim script with both outputs discarded |
| RunExp.RunAll | run_exp.py:26-29 | the main loop produces main's trace |
| RunExp.ScriptSpec | run_exp.py:31-51 | the status is 2 exactly for an unknown workload, 0 exactly for a known workload whose configurations are all valid, and otherwise 1, with the invalid-configuration message for the first invalid piece as its only action |
| RunExp.RunScript | run_exp.py:31-51 | the script's exit status and trace are those of its specification |
| RunExp.RejectedRunsNothing | run_exp.py:32-49 | a rejected workload or configuration starts no command |
| RunExp.AcceptedConfigsAreInitModes | run_exp.py:39-51 | when the script runs, every configuration is an Init mode and all of them run in order |
| RunExp.AllRunsEveryMode | run_exp.py:39-40 | "all" runs most, tiering, caching and striping in that order |
| RunExp.DuplicatesRunTwice | run_exp.py:42-51 | a configuration named twice runs twice |
| RunExp.TrailingCommaRejected | run_exp.py:42-49 | a trailing comma leaves an empty piece that is reported as invalid, with exit status 1 |

## Left out

- **CacheLib and Navy engine internals.** These are eviction, RAM versus flash placement, flash I/O and the asynchronous `wait` in `find`. The engine is a map from key to bytes. The RAM/flash split is not modelled, so `remove` here fails exactly when the key is absent. The real engine also reports `kNotFoundInRam` for an item held only on flash.
- **Navy settings.** Those that are the same in every configuration are kept as one constant record and are not examined further. The `addPool` call and `defaultPool_` are not modelled beyond the engine being replaced.
- **Engine allocation.** Whether the engine can allocate an item is a parameter of the write operations.
- **`Init` takes the properties as a parameter.** In the source it reads them from the adapter's `props_` member.
- **`fieldcount_`.** It is never assigned in the adapter, so its value is whatever the caller gives the constructor.
- **Not modelled:** `PROP_NAME`, `field_prefix_`, `ref_cnt_` and the mutex `mu_`. They are declared, but no modelled operation reads them.
- **Factory plumbing.** `NewCachelibDB` and the registration with `DBFactory` at cachelib/cachelib_db.cc:308-313 are static factory plumbing that constructs the adapter. Here the constructor stands for them.
- **No eviction.** `ReadYourWrite`, `OtherKeysUnchanged` and `PutThenDelete` hold because the modelled engine never evicts. On the real engine a read after a successful put may miss once the item has been evicted.
- **Threads.** Concurrent calls from several benchmark threads are not modelled.
- **Decoder failures.**
  - The source's `assert`s on the pair count become an `Aborted` outcome. A build with `NDEBUG` drops those checks.
  - Reading past the end of a corrupt row is undefined behaviour in the source. Here it is the `Truncated` error.
  - Length fields are taken as little-endian, the byte order of the machines the benchmark runs on.
- **Evaluation order.** `std::stoi` of the reader and writer thread counts is taken left to right. C++ leaves the order of the two argument evaluations unspecified.
- **RunExp.**
  - Files, subprocesses and the standard output stream are not modelled. Printed lines and started commands are recorded in a trace, and exit statuses come from an environment function.
  - That function maps a command string to one status, so repeated runs of the same command (the trim after every configuration) all share one exit status. Only the logged error lines depend on it; the started commands do not.
  - The argument parser's usage message is not modelled, only its exit status 2 for an unknown workload.
- **Core helpers not part of this model:** `core/client.h`, `core/countdown_latch.h`, `utils/properties.h` and the engine headers. Only the behaviour the adapter relies on is modelled: `GetProperty` returns the value or the default.
- **Not in the adapter code.** It has no key-to-pool sharding, no scan reconstruction and no error for an unknown tier mode. The model follows the code: one pool, `scan` always throws, and an unknown mode sets no hierarchy.

# ubimkvol: parameter resolution and validation, in Dafny

This project models the part of the mtd-utils tool `ubimkvol` that decides
what UBI volume to create. `ubimkvol` turns its command line into one
`ubi_mkvol` request. `main` checks argv and copies the device node name into
the global record `myargs` (`struct args`). `parse_opt` then applies each
option to that record in place. `param_sanity_check` rejects records that
lack a size or a name, that name a device that does not exist, or whose name
is too long. `main` then resolves "maximum available size" against the
device, fills the request field by field, issues it, takes back the volume id
the library assigned, and picks the unit the new volume's size is printed in.

The model keeps the program's form:

- `struct args` is the class `Params.Args`. Its constructor is the static
  initialiser. `Apply` and `ParseOpt` update the fields in place, as the
  `switch` and the `while` loop of `parse_opt` do. Each is proved equal to a
  function on record values (`ApplyToken`, `ParseOpts`), and the properties
  are proved about those functions.
- `param_sanity_check` and the report-unit chain are pure functions.
- `main` is the method `Mkvol.Run`. It allocates the record, copies argv[1]
  in, runs the option loop, overwrites the size when max-available is set,
  and fills the request. It is proved to end as the function
  `Mkvol.Invocation` says, and to close the library handle on exactly the
  paths that opened it.

Each libubi call is answered by a field of `Libubi.Library`: whether
`libubi_open` succeeds, what `ubi_get_info` reports, what `ubi_get_dev_info`
reports for a node, the id `ubi_mkvol` writes back for a node and request,
and what `ubi_get_vol_info1` reports for a device number and volume id.

Option input is what `getopt_long` delivers: a list of (key character,
`optarg`) pairs, `Params.Token`.

Files: `wrappers.dfy` (Option, Result), `conversions.dfy` (the C library
conversions), `libubi.dfy` (library records and answers), `params.dfy`
(`struct args`, `parse_opt`), `sanity.dfy` (`param_sanity_check`),
`mkvol.dfy` (`main`).

Where the code does something a reader might not expect, the model follows
the code:

- Only a missing name (a NULL pointer) is rejected. An empty name passes.
- The device check is `devn >= dev_count`. The default `devn` of -1 passes it
  whatever the count.
- `libubi_open` is called before `param_sanity_check`. So a missing size or
  name is only reported when the library opens; otherwise the open failure is
  reported. `ubi_get_info` is never reached in those cases.
- `-d N` writes `/dev/ubiN` into `node` after `main` copied argv[1] there, so
  the device number wins over the positional node name.
- The unit comparisons are strict. Exactly 1 GiB is printed in MiB, and
  exactly 1 MiB in KiB.
- argv needs at least three entries. `ubimkvol /dev/ubi0` alone is rejected
  as too few arguments.

## Model

| member | source | states |
|---|---|---|
| `Conversions.DigitRun` | ubi-utils/src/ubimkvol.c:141 | the digits strtoull consumes form the longest all-digit prefix: every character before the stop is a digit and the one at the stop is not |
| `Conversions.ParseNumber` | ubi-utils/src/ubimkvol.c:141-142 | something is consumed exactly when a digit starts the string or follows a leading + or -; then every consumed character after the sign is a digit, the next one is not, and the value is the number those digits denote, negated exactly when the sign is -; nothing consumed (endp == optarg) yields 0 |
| `Conversions.Decimal` | ubi-utils/src/ubimkvol.c:177 | the digits sprintf("%d") writes are non-empty and all decimal digits |
| `Conversions.DecimalValue` | ubi-utils/src/ubimkvol.c:177 | the digits written for n denote n |
| `Conversions.ParseDecimal` | ubi-utils/src/ubimkvol.c:141-146 | parsing the digits of n followed by a non-digit suffix consumes exactly those digits and yields n, so the suffix is what the multiplier sees |
| `Conversions.Multiplier` | ubi-utils/src/ubimkvol.c:147-153 | a suffix gives -1 unless it is exactly KiB, MiB or GiB, which give 1024, 1024^2 and 1024^3 |
| `Params.Args.constructor` | ubi-utils/src/ubimkvol.c:67-76 | a fresh record has type dynamic, devn -1, size 0, alignment 1, automatic volume id, no name, nlen 0, max-available off and an empty node |
| `Params.ApplyType` | ubi-utils/src/ubimkvol.c:129-138 | `-t` succeeds exactly for "dynamic" and "static" and sets that type; any other string is a bad volume type and leaves the record unchanged |
| `Params.ApplySize` | ubi-utils/src/ubimkvol.c:140-156 | `-s` writes only the size; it is a bad size when no digits are read or the value is negative, a bad specifier when a non-empty suffix has multiplier -1, and otherwise the size is value times multiplier (1 without suffix) and non-negative |
| `Params.ApplyAlignment` | ubi-utils/src/ubimkvol.c:158-164 | `-a` stores the parsed value and succeeds exactly when the whole argument is a numeral with a positive value; otherwise it is a bad alignment |
| `Params.ApplyDevn` | ubi-utils/src/ubimkvol.c:166-178 | `-d` succeeds exactly for a whole non-negative numeral, and then also replaces node by /dev/ubi and the number; a rejected argument still leaves the value in devn |
| `Params.ApplyVolId` | ubi-utils/src/ubimkvol.c:180-186 | `-n` stores the parsed value and succeeds exactly for a whole non-negative numeral; otherwise it is a bad volume id |
| `Params.ApplyName` | ubi-utils/src/ubimkvol.c:188-191 | `-N` always succeeds, the empty string included, setting the name and its length and nothing else |
| `Params.ApplyToken` | ubi-utils/src/ubimkvol.c:128-214 | the switch stops with help exactly on `h`, the version exactly on `V`, a missing parameter exactly on `:`, an unknown-option exit exactly on any other key outside the option set; it continues only on a field-setting key, and `m` only turns max-available on |
| `Params.ParseOpts` | ubi-utils/src/ubimkvol.c:116-218 | the loop ends with success only if every option was one that sets a field; an empty option list leaves the record as it is |
| `Params.ParseOptsAppend` | ubi-utils/src/ubimkvol.c:120-127 | parsing two option lists in a row is parsing the first and, if it went through, the second from its result |
| `Params.FirstStopDecides` | ubi-utils/src/ubimkvol.c:128-214 | the first option that stops the loop decides the outcome, whatever follows it |
| `Params.DefaultsWellFormed` | ubi-utils/src/ubimkvol.c:67-76 | the defaults with argv[1] copied into node satisfy the record invariant |
| `Params.ApplyKeepsWellFormed` | ubi-utils/src/ubimkvol.c:128-214 | an accepted option keeps alignment positive, the volume id automatic or non-negative, the size non-negative, nlen equal to the name's length and node equal to argv[1] or to the /dev/ubi name of devn |
| `Params.ParseKeepsWellFormed` | ubi-utils/src/ubimkvol.c:116-218 | a loop that ends with success preserves that invariant |
| `Params.OptionsKeepOtherFields` | ubi-utils/src/ubimkvol.c:128-214 | every field no option in the list writes keeps its value, whether the options are accepted or not |
| `Params.SizeOption` | ubi-utils/src/ubimkvol.c:140-156 | `-s` with n and no suffix or KiB/MiB/GiB succeeds with size n times 1, 1024, 1024^2 or 1024^3 |
| `Params.NegativeSizeRejected` | ubi-utils/src/ubimkvol.c:141-145 | `-s` with a negative number is a bad size |
| `Params.UnknownSuffixRejected` | ubi-utils/src/ubimkvol.c:146-153 | `-s` with a number followed by any other suffix is a bad size specifier |
| `Params.NumeralOptions` | ubi-utils/src/ubimkvol.c:158-186 | `-n` and `-d` accept every non-negative numeral and `-a` every positive one, storing the value unchanged (`-d` also naming the node); `-a 0` is rejected |
| `Params.MaxavsPersists` | ubi-utils/src/ubimkvol.c:207-209 | once max-available is on, no later option turns it off |
| `Params.MaxavsOptionWins` | ubi-utils/src/ubimkvol.c:207-209 | a loop that ends with success after an `-m` anywhere in it leaves max-available on |
| `Params.DevNodeFits` | ubi-utils/src/ubimkvol.c:177 | the /dev/ubi name of every device number an int can hold fits the 255-character node buffer |
| `Params.DevNodeNamesDevice` | ubi-utils/src/ubimkvol.c:177 | the node name written for devn is /dev/ubi followed by a numeral that reads back as devn |
| `Params.Args.Apply` | ubi-utils/src/ubimkvol.c:128-214 | one pass of the switch updates the record in place exactly as ApplyToken says, including fields written before a failing check |
| `Params.Args.ParseOpt` | ubi-utils/src/ubimkvol.c:116-218 | the option loop leaves the record and returns the status ParseOpts gives |
| `Sanity.ParamSanityCheck` | ubi-utils/src/ubimkvol.c:220-255 | the record passes exactly when none of the five checks fails; otherwise the reported error's check fails and every check made before it (missing size, missing name, info query, device count, name length) passed |
| `Sanity.ChecksBeforeQuery` | ubi-utils/src/ubimkvol.c:225-240 | a missing size or name is reported whatever ubi_get_info would answer |
| `Sanity.DefaultDevnAlwaysExists` | ubi-utils/src/ubimkvol.c:242-245 | devn -1 never fails the device-count check |
| `Sanity.NameBoundary` | ubi-utils/src/ubimkvol.c:230-252 | a present name, the empty one included, passes the name checks exactly when it is at most UBI_MAX_VOLUME_NAME long |
| `Mkvol.CheckArgv` | ubi-utils/src/ubimkvol.c:265-281 | argv is accepted exactly when it has at least three entries and argv[1] is at most 255 characters, and then argv[1] is the node; fewer than two, exactly two and a longer name give their own errors |
| `Mkvol.ReportUnit` | ubi-utils/src/ubimkvol.c:338-343 | the unit is the largest of MiB and GiB the size strictly exceeds, else KiB |
| `Mkvol.UnitBoundaries` | ubi-utils/src/ubimkvol.c:338-343 | exactly 1 GiB is printed in MiB and exactly 1 MiB in KiB; one byte more moves to the next unit |
| `Mkvol.Lebs` | ubi-utils/src/ubimkvol.c:334-336 | the LEB count is C's division truncating toward zero: its magnitude is the magnitudes' quotient and it is positive exactly when the operands have the same sign; for a non-negative size and positive block length it is the number of whole blocks |
| `Mkvol.MakeReport` | ubi-utils/src/ubimkvol.c:334-348 | the report shows ubi_get_vol_info1's id, size, block length and name, the LEB count and unit of that size, and the type of the request |
| `Mkvol.ExitCode` | ubi-utils/src/ubimkvol.c:350-355 | the status is 0 after a creation, help or the version, and -1 otherwise |
| `Mkvol.Prepare` | ubi-utils/src/ubimkvol.c:265-309 | a record reaches the mkvol call exactly when argv and the options are accepted, libubi_open succeeds, param_sanity_check passes and ubi_get_dev_info answers for the node; it is then the parsed record with only the size replaced by the available bytes under max-available; otherwise the run ends at the first step that fails: the argv error, the option loop's stop (help, version, unknown option or its error), the open failure, the sanity check's error, or the dev-info failure |
| `Mkvol.Invocation` | ubi-utils/src/ubimkvol.c:257-356 | a volume is created exactly when the record gets through, ubi_mkvol answers with an id and ubi_get_vol_info1 answers for it; a run stopped before the mkvol call ends as Prepare says, a refused mkvol ends with the mkvol failure and a failed lookup with the vol-info failure; the request is the one built from the prepared record with the written-back id, and the report is MakeReport of the volume information for that id on the device |
| `Mkvol.Run` | ubi-utils/src/ubimkvol.c:257-356 | main ends as Invocation says and closes the library handle exactly when libubi_open was reached and succeeded |
| `Mkvol.RequestConsistent` | ubi-utils/src/ubimkvol.c:294-315 | every request issued has a positive alignment, an automatic or non-negative id, a non-negative size that is positive unless max-available is on, a name UBI accepts, and the node is argv[1] unless `-d` named a device |
| `Mkvol.MaxavsOverridesSize` | ubi-utils/src/ubimkvol.c:306-313 | with `-m` anywhere among the options, the request's size is the device's available bytes, whatever `-s` said |
| `Mkvol.NoSizeNoMaxavs` | ubi-utils/src/ubimkvol.c:225-228 | without `-s` and `-m`, a run that opens the library ends with the missing-size error, whatever the other options |
| `Mkvol.NameOmitted` | ubi-utils/src/ubimkvol.c:225-235 | without `-N`, a run that opens the library ends with the missing size or missing name, independent of ubi_get_info's answer |
| `Mkvol.ExitStatus` | ubi-utils/src/ubimkvol.c:193-213 | the process status is 0 exactly when a volume was created or argv was accepted and the options asked for help or the version (exit(0) in parse_opt), and -1 on every error |
| `Mkvol.OpenBeforeSanity` | ubi-utils/src/ubimkvol.c:282-293 | when libubi_open fails after the options were accepted, the run ends with the open failure and no handle to close, even for a record without a size or a name |
| `Mkvol.StopsBeforeLibrary` | ubi-utils/src/ubimkvol.c:265-292 | a run rejected on argv or stopped by an option opens no handle and does not depend on the library |
| `Mkvol.TenMiBVolume` | ubi-utils/src/ubimkvol.c:311-315 | `/dev/ubi0 -N data -s 10MiB -t dynamic` requests a dynamic volume "data" of 10485760 bytes, alignment 1, id automatic |
| `Mkvol.MaxavsVolume` | ubi-utils/src/ubimkvol.c:306-313 | `/dev/ubi0 -N x -m` with 5000000 bytes available requests 5000000 bytes |
| `Mkvol.NegativeSizeRun` | ubi-utils/src/ubimkvol.c:140-145 | `-s -1` ends with a bad size, whatever the library would answer |
| `Mkvol.UnknownTypeRun` | ubi-utils/src/ubimkvol.c:129-137 | `-t archive` ends with a bad volume type, whatever the library would answer |

## Left out

- getopt_long and the option table (lines 103-114, 123-124) are not modelled. The options arrive as key/argument pairs. Because the option string does not start with ':', glibc reports a missing argument as '?', which ends in the default branch; the ':' branch is kept as the code has it.
- strtoul/strtoull are reduced to an optional sign and decimal digits. Leading blanks, the 0x and 0 base prefixes, and the conversion of out-of-range values are not modelled.
- C integer widths are not modelled: `bytes *= mult` (line 154) can overflow, and the unsigned results are truncated into `int` fields. The model uses unbounded integers, so no size bound is claimed.
- `ubiutils_get_multiplier` lives in common.c, which is not part of this model. `Conversions.Multiplier` accepts exactly the three suffixes the error message at lines 150-151 names.
- Strings are the characters before the C terminator. argv cannot hold a NUL, so `*endp != '\0'` becomes "characters remain".
- libubi is foreign code. Each call is represented by its answer in `Libubi.Library`. The kernel is taken to report a non-negative device count and available size.
- `Mkvol.Invocation`, `Mkvol.Run`: require that ubi_get_vol_info1 never reports a zero erase-block size, because line 335 divides by it without a check.
- All text output is left out: help, usage and version text, error and warning messages, perror, and the `%.1f` magnitudes and KiB block size of lines 339-346. Only the unit choice and the LEB count are modelled. The "Set volume size" line (308) prints the request's size before it is assigned; that printout is not modelled.
- exit(0) and exit(-1) inside parse_opt are outcomes of the run (`HelpShown`, `VersionShown`, `UnknownOption`). How the shell sees main's -1 status is not modelled.

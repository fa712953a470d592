# IoT-LAB gateway: CC2650 CCFG verifier and open-node lifecycles, in Dafny

This project models two parts of the IoT-LAB gateway's open-node code.

The first is the CC2650 firmware verifier, `Cc2650FirmwareVerifier.has_valid_ccfg`.
It converts an ELF image to Intel HEX with `objcopy`. It then reads the
88-byte customer configuration (CCFG) block at `0x1FFA8`, which ends the last
flash page at `0x20000`. The image is accepted when bytes 48..51 of that block
are blank (`FF FF FF FF`, which is also what an unfilled gap reads as) or
the bootloader signature `C5 0B FE C5`. The converted file is modelled as a map from address
to byte, and addresses it does not define read as `0xFF`. A file that defines
no byte at all converts to an empty array (IntelHex returns early when given a
start without an end), so it is rejected. How the converter run
ended (an exit status, or killed on timeout) is an input.

The second is the lifecycle of two open-node kinds:

- the TI SimpleLink node (`NodeSimpleLinkBase`): setup, teardown, flash,
  clear_serial, reset, debug start/stop and status;
- the Docker node (`NodeDocker`): the formatted `docker run` command, setup
  and teardown.

Every collaborator is abstracted by the integer it returns. This covers the
TTY waits, OpenOCD, the serial redirection, the docker CLI and the docker
exec bridge. Opening the serial port is abstracted by whether it succeeds.
Each operation returns an `Outcome`: the calls it made, in order, each with
its result and whether that result was added in, plus the error count it
returns. The invariant `Consistent` says that the count is exactly the sum of
the kept results. Every operation is proved to keep it.

Modules:

- `CommandLine` (`command_line.dfy`): `str.format` over templates of text and
  named fields, and a whitespace `Split` standing for `shlex.split`, with the
  split/join round trip.
- `Options` (`options.dfy`): the optional value used for `None`-able arguments
  and for `str.format`'s `KeyError`.
- `Steps` (`steps.dfy`): the summed-error-count convention, with combinators
  `Counted` (`ret_val += call()`), `Discarded` (`call()` alone) and `Then`.
- `Cc2650Verifier` (`cc2650_verifier.dfy`): the verifier.
- `SimpleLink` (`simple_link.dfy`): the SimpleLink node.
- `DockerNode` (`docker_node.dfy`): the Docker node.

The verifier stores its `timeout` argument (default 100). However, `_args`
(cc2650_fw_verifier.py:61-65) builds the call's keyword arguments without it,
so the stored value never reaches `subprocess_timeout.call`. Whether a
conversion times out is therefore decided by the collaborator. The model
takes that as an input and does not tie it to `Verifier.timeout`.

SimpleLink setup and teardown call `wait_no_tty` first but drop its result
(node_simple_link.py:73 and :87); only the later calls are added to the count.

## Model

| member | source | states |
|---|---|---|
| Cc2650Verifier.NewVerifier | gateway_code/utils/cc2650_fw_verifier.py:42-47 | the timeout is stored as given; the converter's output is kept iff `verb` |
| Cc2650Verifier.DefaultVerifier | gateway_code/utils/cc2650_fw_verifier.py:42-47 | a verifier built with defaults has timeout 100 and discards the converter's output |
| Cc2650Verifier.CallCmd | gateway_code/utils/cc2650_fw_verifier.py:51-59 | a normal exit returns its status unchanged, so the return code is 0 exactly when the command exited with status 0; a timeout becomes 1 instead of an exception |
| Cc2650Verifier.ToHexCommand | gateway_code/utils/cc2650_fw_verifier.py:75-76 | formatting the converter template yields `objcopy -I elf32-big -O ihex <elf> <hex>` |
| Cc2650Verifier.ToHexArgv | gateway_code/utils/cc2650_fw_verifier.py:61-78 | for plain paths, splitting the command gives `objcopy -I elf32-big -O ihex`, then the ELF path, then the HEX path |
| Cc2650Verifier.ToBinArray | gateway_code/utils/cc2650_fw_verifier.py:85 | `tobinarray(start=..., size=...)` is empty exactly when the HEX file defines no byte; otherwise it has `size` bytes, byte i being the image byte at `start + i`, or 0xFF where the file defines none |
| Cc2650Verifier.Padded | gateway_code/utils/cc2650_fw_verifier.py:85 | a padded range has `size` bytes, byte i being the image byte at `start + i`, or 0xFF where the file defines none |
| Cc2650Verifier.CcfgBlock | gateway_code/utils/cc2650_fw_verifier.py:85-88 | for a file with data, the CCFG block is 88 bytes from 0x1FFA8, ends exactly at 0x20000, and contains the slice 48..52; for a file without data it is empty |
| Cc2650Verifier.BinArraySlice | gateway_code/utils/cc2650_fw_verifier.py:85-88 | a slice `[lo:hi]` of a padded range equals the padded sub-range that starts `lo` bytes later |
| Cc2650Verifier.Slice | gateway_code/utils/cc2650_fw_verifier.py:88 | Python slicing `s[lo:hi]` for `lo <= hi`: the plain sub-sequence when `hi` is within bounds, the tail from `lo` when only `hi` is past the end, empty when `lo` is past the end |
| Cc2650Verifier.FieldBytes | gateway_code/utils/cc2650_fw_verifier.py:88 | padding the four bytes from 0x1FFD8 reads each field address in turn |
| Cc2650Verifier.FieldOfBlock | gateway_code/utils/cc2650_fw_verifier.py:85-88 | `ccfg[48:52]` is the image bytes at 0x1FFD8..0x1FFDB for a file with data, and empty for a file without |
| Cc2650Verifier.HasValidCcfg | gateway_code/utils/cc2650_fw_verifier.py:67-94 | the image is accepted iff the conversion exited 0, the HEX file defines some byte, and the bytes at 0x1FFD8..0x1FFDB are `FF FF FF FF` or `C5 0B FE C5` |
| Cc2650Verifier.ConversionFailureRejects | gateway_code/utils/cc2650_fw_verifier.py:78-94 | a non-zero conversion result rejects the image whatever the HEX file holds |
| Cc2650Verifier.TimeoutRejects | gateway_code/utils/cc2650_fw_verifier.py:56-59 | a converter timeout becomes return code 1 and the image is rejected |
| Cc2650Verifier.FieldDecides | gateway_code/utils/cc2650_fw_verifier.py:88-93 | after a successful conversion of a file with data, a blank field accepts, the bootloader signature accepts, and any other value rejects |
| Cc2650Verifier.EmptyImageRejects | gateway_code/utils/cc2650_fw_verifier.py:85-93 | a HEX file that defines no byte is rejected whatever the run, although its field would read as blank |
| Cc2650Verifier.OnlyFieldMatters | gateway_code/utils/cc2650_fw_verifier.py:85-93 | two images that agree on 0x1FFD8..0x1FFDB and on whether they hold data get the same verdict |
| Cc2650Verifier.WriteOutsideFieldKeepsVerdict | gateway_code/utils/cc2650_fw_verifier.py:85-93 | changing any byte outside 0x1FFD8..0x1FFDB leaves the verdict of a file with data unchanged; into a file without data it yields acceptance iff the conversion succeeded |
| Cc2650Verifier.FilledGapAccepted | gateway_code/utils/cc2650_fw_verifier.py:88-90 | a HEX file with data that defines nothing in the 88-byte CCFG block pads it with 0xFF and is accepted |
| Cc2650Verifier.ExampleFields | gateway_code/utils/cc2650_fw_verifier.py:88-93 | fields `FF FF FF FF` and `C5 0B FE C5` pass, `00 00 00 00` fails, and a failed conversion fails even with the signature |
| CommandLine.Format | gateway_code/utils/cc2650_fw_verifier.py:76 | `template.format(...)` yields a string exactly when every field it names is supplied, and raises `KeyError` otherwise |
| CommandLine.FormatText | gateway_code/utils/cc2650_fw_verifier.py:76 | a literal piece of a template formats to itself |
| CommandLine.FormatField | gateway_code/utils/cc2650_fw_verifier.py:76 | a `{name}` field formats to the value supplied for `name`, and raises `KeyError` when none is |
| CommandLine.FormatAppend | gateway_code/utils/cc2650_fw_verifier.py:76 | formatting two templates one after the other gives the two strings concatenated, and fails when either part fails |
| CommandLine.Split | gateway_code/utils/cc2650_fw_verifier.py:64 | `shlex.split`: the words are non-empty and hold no whitespace, and there are none exactly when the text is all whitespace |
| CommandLine.SplitJoin | gateway_code/utils/cc2650_fw_verifier.py:64 | splitting space-joined plain words gives the words back |
| Steps.Counted | gateway_code/open_nodes/common/node_simple_link.py:74 | `ret_val += call()`: one call is recorded, and its result is the whole count |
| Steps.Discarded | gateway_code/open_nodes/common/node_simple_link.py:73 | a bare call is recorded, but its result is not counted and the count is 0 |
| Steps.Then | gateway_code/open_nodes/common/node_simple_link.py:71-77 | the second step runs after the first whatever it returned; calls and kept-flags concatenate, counts add, and the count stays the sum of the kept results |
| Steps.SumCountedAppend | gateway_code/open_nodes/common/node_simple_link.py:71-77 | the kept-result sum of two traces run in sequence is the sum of their sums |
| Steps.AllZeroSumsToZero | gateway_code/open_nodes/common/node_simple_link.py:71-77 | when every call returned 0, the summed count is 0 |
| Steps.NonNegativeSum | gateway_code/open_nodes/common/node_simple_link.py:82-93 | non-negative results give a non-negative count, and one positive kept result makes it positive |
| SimpleLink.SimpleLinkBoard | gateway_code/open_nodes/common/node_simple_link.py:41-43 | the board uses TTY `/dev/iotlab/ttyON_SIMPLELINK`, baud rate 115200 and the TI OpenOCD path |
| SimpleLink.ClearSerialPort | gateway_code/open_nodes/common/node_simple_link.py:57-66 | one port open/flush on the board's TTY and baud rate; returns 0 iff the port opened and 1 iff it did not |
| SimpleLink.FlashTarget | gateway_code/open_nodes/common/node_simple_link.py:102 | `None` and the empty path select the idle firmware; any other path is used as given |
| SimpleLink.Flash | gateway_code/open_nodes/common/node_simple_link.py:96-107 | OpenOCD flashes the selected firmware, then clear_serial runs regardless; both results are added |
| SimpleLink.Setup | gateway_code/open_nodes/common/node_simple_link.py:69-77 | wait_no_tty, wait_tty, flash, clear_serial, serial start run in that order; all but the first wait are summed |
| SimpleLink.Teardown | gateway_code/open_nodes/common/node_simple_link.py:80-93 | wait_no_tty, wait_tty, debug stop, serial stop, idle flash, clear_serial run in that order; all but the first wait are summed |
| SimpleLink.Reset | gateway_code/open_nodes/common/node_simple_link.py:110-113 | a reset is exactly one OpenOCD reset, with no TTY wait, and returns its result |
| SimpleLink.DebugStart | gateway_code/open_nodes/common/node_simple_link.py:115-118 | debug start is exactly one OpenOCD debug start and returns its result |
| SimpleLink.DebugStop | gateway_code/open_nodes/common/node_simple_link.py:120-123 | debug stop is exactly one OpenOCD debug stop and returns its result |
| SimpleLink.Status | gateway_code/open_nodes/common/node_simple_link.py:125-129 | status calls nothing and returns 0 |
| SimpleLink.NeverAbortsEarly | gateway_code/open_nodes/common/node_simple_link.py:69-107 | the calls made by setup, teardown and flash do not depend on any collaborator's result |
| SimpleLink.WaitNoTtyIgnored | gateway_code/open_nodes/common/node_simple_link.py:73-88 | the result of the first `wait_no_tty` never changes what setup or teardown return |
| SimpleLink.SetupOrder | gateway_code/open_nodes/common/node_simple_link.py:73-76 | setup waits for the TTY to vanish, then to reappear, then flashes, then starts the serial redirection |
| SimpleLink.TeardownOrder | gateway_code/open_nodes/common/node_simple_link.py:89-92 | teardown stops the debugger before the serial redirection, and both before flashing the idle firmware |
| SimpleLink.AllSucceedGivesZero | gateway_code/open_nodes/common/node_simple_link.py:69-113 | when every collaborator succeeds, setup, teardown, flash, reset and debug start/stop return 0 |
| SimpleLink.CountsNonNegative | gateway_code/open_nodes/common/node_simple_link.py:69-107 | with non-negative results, setup and teardown counts are non-negative; a TTY that does not reappear makes both positive; an unopenable port makes flash positive |
| SimpleLink.IdleFirmwareDefault | gateway_code/open_nodes/common/node_simple_link.py:92-102 | setup with no firmware or an empty path flashes the idle firmware, and so does every teardown |
| DockerNode.NewNode | gateway_code/open_nodes/node_docker.py:35-48 | the run command is the fixed template with the board hostname and the fixed image substituted |
| DockerNode.RunArgv | gateway_code/open_nodes/node_docker.py:36-54 | for a plain hostname, `docker run` gets `-ti --rm -d --name node-docker -h <host> <image> bash` |
| DockerNode.KillArgv | gateway_code/open_nodes/node_docker.py:59-61 | the kill command splits to `docker kill node-docker` |
| DockerNode.Setup | gateway_code/open_nodes/node_docker.py:52-56 | setup runs `docker run` and then starts the exec bridge; it returns the sum of the two results |
| DockerNode.Teardown | gateway_code/open_nodes/node_docker.py:59-61 | teardown is exactly one call, `docker kill node-docker`, and returns its exit code |
| DockerNode.SetupIgnoresFirmware | gateway_code/open_nodes/node_docker.py:52-56 | the firmware argument changes nothing in setup |
| DockerNode.SetupOrder | gateway_code/open_nodes/node_docker.py:54-55 | the container is launched before the bridge starts, and the bridge starts even when `docker run` exits non-zero |
| DockerNode.AllSucceedGivesZero | gateway_code/open_nodes/node_docker.py:52-61 | when every docker step returns 0, setup and teardown return 0 |

## Left out

- The supervision loop of the docker exec bridge and the serial redirection (`ExternalProcess`, `SerialRedirection`) is not modelled. The bridge is a stoppable thread that reruns `docker exec` through `socat` in a loop (gateway_code/utils/docker.py:34-42). Their `start`/`stop` results are inputs.
- `Docker.check_error` only logs and returns its argument unchanged, so it is not modelled.
- The internals of `objcopy`, the IntelHex parser, OpenOCD, pyserial, `subprocess`/`subprocess_timeout` and the docker CLI are collaborators. Each is an integer result, or the parsed address-to-byte map for the converter.
- Real waiting in `common.wait_tty`/`wait_no_tty` is left out. Their results are inputs.
- Temporary-file creation and deletion, the `/dev/null` handle, logging and the `logger_call` decorator are side effects with no bearing on the results, so they are left out.
- `BoardConfig` is an input: its hostname is a parameter of `DockerNode.NewNode`. `FW_IDLE` and `TYPE` come from concrete board classes, and `FW_IDLE` is a parameter of `SimpleLink.SimpleLinkBoard`. `TYPE` is only logged.
- `ELF_TARGET`, `DIRTY_SERIAL`, `AUTOTEST_AVAILABLE` and `ALIM` are not read by the modelled operations. The `__init__` wiring of OpenOCD and the serial redirection only creates collaborators.
- `Verifier.timeout` is not connected to the converter outcome, because `_args` never passes it on (see above).
- Cc2650Verifier.CallCmd: only a normal exit and `TimeoutExpired` are modelled. Any other exception of the call, such as an `OSError` when `objcopy` cannot be started, is not caught at cc2650_fw_verifier.py:56-59 and propagates out of `has_valid_ccfg`; the model has no outcome for it.
- DockerNode.Setup: only exit statuses of `docker run` are modelled. An `OSError` from `subprocess.call` when `docker` cannot be started is not caught at node_docker.py:54; it escapes setup and the bridge start at :55 is never made.
- DockerNode.Teardown: an `OSError` from `subprocess.call` at node_docker.py:61 is not caught and escapes teardown; the model has no outcome for it.
- SimpleLink.ClearSerialPort: only the failure to open the port is modelled. A `SerialException` from `reset_input_buffer()` or `close()` (node_simple_link.py:64-65) is not caught and propagates out of flash, setup and teardown; the model counts an opened port as 0.
- Cc2650Verifier.ToBinArray: for a file with data, IntelHex raises `ValueError` for a non-positive size (a file without data returns the empty array first); the model requires a positive size instead, and the only caller passes 88.
- CommandLine.Split: it splits at whitespace only and does not interpret quotes or backslashes. It never fails, whereas `shlex.split` raises `ValueError` on an unbalanced quote. For that reason, the argv lemmas are stated only for plain words (`IsToken`).
- Cc2650Verifier.ToHexArgv: it is proved only for ELF and HEX paths without whitespace, quotes or backslashes. For other paths, `shlex.split` would produce different arguments.
- DockerNode.RunArgv: it is proved only for a hostname without whitespace, quotes or backslashes.

# modbus_pd in Dafny

A model of the Pure Data external `modbus`. The external wraps libmodbus so that a patch can talk to a Modbus RTU slave over a serial line. Each instance is created with a slave address and a register window (a first register and a last register, where last = 0 means "one register"). It has four methods:

- `open <tty>` attaches the instance to a serial line and queries the slave's identity.
- a list writes the list's values to the window's registers.
- a bang reads the window's registers and outputs them as a list.
- `baud` is rejected.

Serial lines are shared through a process-wide registry. Each tty symbol is bound to its libmodbus context. The most recently opened tty acts as a fallback for instances that never opened a line themselves.

libmodbus is not modelled. Every `modbus_*` call is an oracle that succeeds or fails. Its outcome is a parameter of the method that makes the call:

- `writeOk` for the writes;
- `reply` for the read that a bang makes;
- `OpenReplies` for `modbus_new_rtu`, `modbus_connect`, `modbus_report_slave_id` and the version read.

The call itself is appended to a `Trace` as a `BusOp`. `post` and `pd_error` lines are appended to the same `Trace` as `Message`s, with the source's own texts. A successful read returns exactly `count` 16-bit words, and every method that reads states this as a `requires` on its reply parameter.

Files:

- `wrappers.dfy`: `Option`, standing in for a pointer that may be NULL.
- `registers.dfy` (module `Registers`): the pure arithmetic. It covers the register count of a window, the address truncation, the clamp-and-repeat fill of the register buffer (a specification function and the imperative fill loop proved against it) and the firmware-version decode.
- `host.dfy` (module `Host`): libmodbus context identities (`LinkId`), the `BusOp` and `Message` records, the `Trace` and the tty `Registry`. The registry is `links`, the `s_thing` of each tty symbol, plus `recent`, which is `recent_tty`.
- `modbus_pd.dfy` (module `ModbusPd`): the `ModbusObject` class, i.e. `t_modbus_class`, with its constructor and the list, bang, open and baud methods. It also holds a client scenario: two lines opened in turn, and a third instance that falls back to the second line.

Behaviour of the code that may look surprising, and that the model keeps as written:

- The choice between the single-register and multiple-register write is keyed on `last_reg_no == 0`, not on the register count being 1. So a window with `first == last != 0` is written with write-multiple-registers and a count of 1 (`src/modbus_pd.c:70`).
- The register count is not always at least 1. The code computes `last - first + 1` in signed `int`, so the count is 0 or negative when `0 < last < first` (`src/modbus_pd.c:49`). List therefore requires a count of at least 0 (see its line under Left out). Bang requires at least 1, because it declares a variable-length array of that size.
- A failed open does not simply leave the instance unlinked. A failed `modbus_new_rtu` sets `ctx` to NULL even if the instance had a context before. A failed `modbus_connect` leaves `ctx` set to the unconnected context, without registering it (`src/modbus_pd.c:141-149`).

## Model

| member | source | states |
|---|---|---|
| `Registers.ToByte` | src/modbus_pd.c:46 | the stored slave address is the one byte congruent to the argument modulo 256, and equals the argument when it is below 256 |
| `Registers.NumRegs` | src/modbus_pd.c:49 | a last register of 0 means one register; any other last register gives last - first + 1, so the window ends at last, and the count is at least 1 exactly when last is 0 or first <= last; the value lies in (-65535, 65536], so it fits a signed int and is not reduced modulo 2^16 |
| `Registers.Cursor` | src/modbus_pd.c:90-96 | the input cursor for slot i stays below the atom count, equals i while atoms remain and sticks at the last atom afterwards |
| `Registers.Filled` | src/modbus_pd.c:88-96 | the filled buffer has exactly one value per register |
| `Registers.FillRegisters` | src/modbus_pd.c:88-96 | the fill loop with the moving ac/av cursor produces exactly `Filled(atoms, numRegs)`; it needs an atom only when there is at least one register |
| `Registers.FilledCopiesPrefix` | src/modbus_pd.c:90-96 | the input atoms are copied into the buffer in order, as far as both reach |
| `Registers.FilledRepeatsLast` | src/modbus_pd.c:92-95 | every slot at or beyond the atom count holds the last atom |
| `Registers.FilledIgnoresExtra` | src/modbus_pd.c:90 | with at least as many atoms as registers, the buffer is the first numRegs atoms and the rest are ignored |
| `Registers.FilledPadsWithLast` | src/modbus_pd.c:90-96 | with fewer atoms than registers, the buffer is the atoms followed by copies of the last atom |
| `Registers.FilledSingleAtom` | src/modbus_pd.c:88-96 | the list [7] sent to a window of registers 10 to 12 fills [7, 7, 7] |
| `Registers.FirmwareVersion` | src/modbus_pd.c:168 | the decoded version is below 2^32, its high 16 bits are the first version register and its low 16 bits the second |
| `Registers.FirmwareVersionInjective` | src/modbus_pd.c:168 | distinct register pairs decode to distinct versions |
| `Registers.FirmwareVersionExample` | src/modbus_pd.c:168 | registers [0x0001, 0x0002] decode to 0x00010002 |
| `Host.Registry.constructor` | src/modbus_pd.c:23 | at process start no tty is bound to a context and there is no most recent tty |
| `Host.Registry.Valid` | src/modbus_pd.c:151-152 | the most recent tty, when there is one, is always a tty whose context is registered, because the two are set together |
| `Host.Registry.Recent` | src/modbus_pd.c:65 | the fallback context exists exactly when there is a most recent tty, and it is the context of an open tty |
| `Host.Registry.Register` | src/modbus_pd.c:151-152 | registering binds the tty to its context, makes it the most recent tty and keeps the most recent tty an open one |
| `ModbusPd.IdentifyOps` | src/modbus_pd.c:155-165 | the identity queries set the slave first, then report-slave-id, and add the version read only when the ID query succeeded; every call goes to the same context |
| `ModbusPd.IdentifyLog` | src/modbus_pd.c:156-168 | the identity queries write at least one line; the last line is an error exactly when a query failed, and no line before it is an error |
| `ModbusPd.IdentifyStopsAtFirstFailure` | src/modbus_pd.c:155-168 | the version read is issued exactly when the ID query succeeded; a version is posted exactly when both queries succeed, decoded from the two registers; otherwise exactly one error line is written |
| `ModbusPd.ModbusObject.constructor` | src/modbus_pd.c:39-54 | a new instance has no tty and no context, baud 115200, the address modulo 256, the given window and its derived register count |
| `ModbusPd.ModbusObject.SelectLink` | src/modbus_pd.c:59-66 | without a context and without a recent tty: an error line, no bus call and no state change; without a context but with a recent tty: a notice and the recent tty's context is adopted and kept; with a context: it is kept and nothing is written |
| `ModbusPd.ModbusObject.Send` | src/modbus_pd.c:56-81 | after link selection, a nonzero last register issues exactly one write-multiple of the whole window; a zero last register issues exactly one write-single of the first value; a failed write only adds an error line; with no link, no bus call at all |
| `ModbusPd.ModbusObject.List` | src/modbus_pd.c:83-101 | the bus call issued writes `Filled(atoms, numRegs)`, or the first atom in single-register mode, with the same link selection and error lines as Send |
| `ModbusPd.ModbusObject.Bang` | src/modbus_pd.c:103-128 | after link selection, exactly one read-holding-registers of numRegs registers from first, also in single-register mode; on failure an error line and no output; on success the output is the numRegs values read, in register order |
| `ModbusPd.ModbusObject.Identify` | src/modbus_pd.c:155-168 | the identity queries issue set-slave, report-slave-id and then the version read only if the ID query succeeded, and log what `IdentifyLog` gives |
| `ModbusPd.ModbusObject.Open` | src/modbus_pd.c:130-169 | the tty is always recorded; an open tty's context is reused and the registry and recent tty are untouched; otherwise the context is what creation returned, and the registry gains tty->context and recent becomes the tty only when creation and connection both succeed; each failure stops the sequence with its own error line |
| `ModbusPd.ModbusObject.Baud` | src/modbus_pd.c:171-173 | always writes "Not implemented", issues no bus call and changes no state |
| `ModbusPd.MostRecentFallback` | src/modbus_pd.c:56-66 | after lines A then B are opened, an instance with no context writes through B with a notice, and a single value 7 is written to registers 10 to 12 as [7, 7, 7] |

## Left out

- libmodbus itself is not modelled: RTU framing, CRC16, timeouts, retries, exception decoding and the serial port. Each `modbus_*` call is an oracle whose outcome is a parameter.
- `modbus_set_slave`'s return value is ignored by the source, so it is recorded as a bus call with no outcome.
- Pure Data glue is not modelled: `class_new`, `class_add*`, `pd_new`, outlets and the formatting of `post`/`pd_error`. Console lines are recorded as `Message` values. The outlet is the `out` result of Bang.
- The stack-or-heap switch of `LIST_ALLOCA`/`LIST_FREEA` is memory management only. The register buffer is a `seq`.
- Float arguments (`t_floatarg`, `atom_getfloat`) and their conversion to `uint16_t` are not modelled. Inputs are already 16-bit integers.
- The slave-ID string printed from `&slave_id[2]` is C-string output. It is recorded as `SlaveIdPost` without its text.
- `MB_VERSION` is defined in `modbus-regs.h`, which is not part of this model. It is the `versionReg` parameter of Open. `MB_VERSION_REGS` is taken to be 2, the two registers the decode reads.
- `Registers.FirmwareVersion`: gives the intended unsigned value `hi * 65536 + lo`. In C, `version[0] << 16` is computed in signed `int`, and that is undefined behaviour when the first register is 0x8000 or more.
- ModbusPd.ModbusObject.List: requires a register count of at least 0, because `LIST_ALLOCA` at `src/modbus_pd.c:88` passes a negative count to `alloca`, where it wraps to a huge `size_t` (undefined behaviour). It also requires at least one atom when there is a register to fill, because line 91 reads `av` even when `ac` is 0.
- `ModbusPd.ModbusObject.Open`: libmodbus allows any context value. The model does not require a newly created context to differ from the ones in the registry.
- The registry reuses `s_thing`, the receiver binding of Pure Data symbols. The model does not track any other binding of the same symbol.
- The instance destructor is an empty no-op and is not modelled.
- `src/modbus_test.c` is a standalone test program doing serial I/O. Its only logic is the version formula, which is already modelled.
- There is no concurrency in the source.

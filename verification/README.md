# A verified model of the kernel

This project models a small x86 kernel in Dafny and proves what its parts promise together. The
kernel runs three virtual terminals on one VGA screen, six process slots, a round-robin
scheduler, two user windows in one address space, a read-only file system and one real-time
clock divided among the terminals. Interrupts are off inside every handler and system call, so
each is one step of a state machine; `read` turns them on, and on the terminal and on the clock,
where it waits, it is a begin step and poll steps.

Each component has the same shape. A module gives the state as a value and every operation as a
function on it. A class holds the fields, arrays and tables that the C code updates in place, and
each of its methods, loops included, is proved to do to that memory exactly what the function
does to the value. The theorems are about runs of the functions, of any length and any
interleaving.

| file | component |
|---|---|
| `Screen.dfy`, `Video.dfy`, `Display.dfy` | one terminal and its scrollback; three terminals on one display; the display driver |
| `Keyboard.dfy`, `Replies.dfy`, `Limits.dfy` | line editing and echo; what a read returns; how long a line gets |
| `Keys.dfy`, `KeyboardDevice.dfy`, `TerminalWrite.dfy` | what every key does; the driver; terminal writes |
| `Paging.dfy` | page tables, translation, the translation cache |
| `Processes.dfy`, `ProcessRuns.dfy`, `Programs.dfy` | execute, halt, the scheduler and the process table; the process forest; loading of programs |
| `UserMemory.dfy` | stores, faults, and the system calls that copy to a process's memory |
| `KernelRuns.dfy`, `Scheduling.dfy` | invariants of whole runs; round robin and boot |
| `Descriptors.dfy`, `Arguments.dfy` | descriptor tables and file streams; a command's argument from parent to child |
| `WholeKernel.dfy` | processes and terminals as one state |
| `KernelState.dfy` | the kernel's globals in memory and their handlers |
| `FileSystem.dfy`, `Command.dfy`, `Strings.dfy` | files, directory and lookup; command lines; C strings |
| `Rtc.dfy` | the virtual real-time clocks |
| `Numbers.dfy`, `Memory.dfy` | number printing; memcpy, memset, memmove |

The theorems to start from: `Video.EachTerminalShowsItsOwnTape`, `Keyboard.EchoAgreesUntilEnter`,
`Replies.LineIsReturnedExactly`, `Scheduling.ReachableIsForest`, `KernelRuns.ExecuteReturns`,
`KernelRuns.UserReachesOwnFrame`, `Scheduling.ResumesWhereItStopped`,
`Descriptors.FileIsReadWhole`, `Programs.ProgramIsLoaded`, `UserMemory.ReadLandsExactly`,
`Arguments.ArgumentArrives`, `Keys.KeyDoes`,
`WholeKernel.ScreenIsItsProcesses`, `WholeKernel.ReplyIsItsTerminals`,
`Rtc.VirtualRateIsExact` and `Rtc.FlagIsExact`.

## Where the code departs from its comments

The model follows the code.

- `putc` (lib.c:276-277) returns from a backspace at the top-left before it undoes the
  redirection. For a background process this leaves the shared display on the wrong page.
  `Video.StepRefines` and `Video.RunRefines` say exactly when; `Video.StuckBackspaceExample` is a
  run in which it happens.
- `read_data` (file_system.c:99) stops one byte late, so a read that crosses the end of a file
  delivers the byte after it. `FileSystem.FileReassembles` says exactly when.
- `RTC_write` (rtc.c:149-167) means to refuse rates above 1024, but its loop accepts 2048 as
  well; it never matters, because the rate is one byte. `Rtc.AcceptsRate` states both.
- `terminal_read` (terminal.c:117) tests the address of the index and not the index. After Enter
  and a backspace over the newline, on an otherwise empty line, it looks before the buffer:
  `Keyboard.EraseAfterEnterFaults` is that run, and `Keyboard.FaultsExactly` and
  `Keyboard.RunFaultsExactly` say exactly when an access leaves the buffer, which the model
  records in `fault`.
- Keys between Enter and the drain still edit the line. `terminal_read` drops one late character
  and means no more (terminal.c:116-122), so it does not always hand over the submitted line:
  `Replies.EraseAfterEnterLosesNewline` is a key that makes `ab` come back as `a`, and
  `Replies.LineIsReturnedExactly` says for every run when it does; `Replies.LateKeyExactly` is the
  case of one key.
- A fault in the copy of `terminal_read` (terminal.c:125) comes before the Enter flag is cleared,
  so the next reader of that terminal gets the line: `Replies.FaultedLineIsReadNext`.
- `halt` (system_calls.c:58-83) does not clear the exception flag on the way that restarts a base
  shell, so a later child's execute returns 256: `KernelRuns.FlagIsStaleCrash` and
  `KernelRuns.StaleExceptionExample`.
- `vidmap` (system_calls.c:461) takes a pointer up to 132 MB inclusive, although from the last
  four the address does not fit and the process ends in a fault: `UserMemory.VidmapFitsExactly`
  says exactly when, and `KernelRuns.VidmapAtTheEnd` is an input.
- `read` and `getargs` (system_calls.c:327-333, 442-445) refuse a null buffer and check no other.
  `UserMemory.ReadLandsExactly` says exactly when the bytes land in the reader's own memory, and
  `UserMemory.BufferAtPcb` is an input for which they do not.
- `terminal_write` (terminal.c:161-163) reprints the type-ahead by calling itself, and asks about
  the prompt again: `TerminalDriver.ReprintEndsExactly` says when that ends, and
  `TerminalDriver.TypedPromptNeverEnds` is an input for which it does not.
- The limit on a line (terminal.c:98) is one variable for all terminals: `Limits.LineFitsRequest` says
  when a line fits what its reader asked for, and `Limits.SharedLimitExample` is a run in which it
  does not.
- Switching the visible terminal does not move the 256 MB window until the next tick
  (`KernelRuns.WindowAfterSwitch`).

Two premises run through the process theorems. The file system is well formed, and the file
`shell` exists and starts with the ELF magic number (`ProcessRuns.ShellLoads`). And no `read` or
`getargs` is given a buffer that starts in the kernel's own 4-8 MB, where the PCBs and the line
buffers are (`Processes.EventOk`); every other buffer, mapped or not, is allowed, and so is every
store. The same premise is made of `terminal_read`'s buffer.

## Model

| member | source | states |
|---|---|---|
| Memory.MoveUntilAligned | lib.c:485-495 | The head loop copies whole bytes until the count is used up or the destination is 4-aligned, and touches nothing else. |
| Memory.MoveDwords | lib.c:496-503 | The dword loop equals a bytewise copy of four times its count. |
| Memory.Memcpy | lib.c:483-520 | Head, dword and tail loops together equal one bytewise copy of n bytes, for every n, alignment and non-overlapping (or downward) placement; every other byte is as before. |
| Memory.Memset | lib.c:400-434 | The three loops equal a bytewise fill with the low byte of c, for every n and alignment; every other byte is as before. |
| Memory.Memmove | lib.c:529-547 | For every overlap the destination ends up holding what the source held at the start; the direction flag is left set exactly when the copy went downwards. |
| Screen.ScrollMatches | lib.c:227-240 | Scrolling a page that shows the window of a cell array makes it show the window of that array with one blank row added. |
| Screen.PutShows | lib.c:263-306 | One character on the 80x25 page and on the unbounded tape keeps the page the last-25-rows window and the cursor the tape position. |
| Screen.ScreenIsTapeWindow | lib.c:227-240 | For every sequence of bytes and clears the page is exactly the last-25-rows window of the tape that the same sequence makes. |
| Screen.EveryRunShowsItsTape | lib.c:263-306 | The same from any page and any cursor on the screen: no starting state is excluded. |
| Screen.AttributesStayPlain | lib.c:270-304 | If all attributes were 0x07 they stay 0x07, and the 96 spare bytes of the page never change. |
| Screen.TextLandsInOrder | lib.c:289-306 | Printable text occupies consecutive tape cells from the cursor on, changes no other cell, and moves the window only as far as it must. |
| Screen.ClearingBlanks | lib.c:21-31 | Clearing makes every one of the 2000 cells a space with attribute 7 and puts the cursor at the top-left. |
| Screen.LineEndMoves | lib.c:263-271 | A line end goes to the start of the next row; on the last row the characters of all rows move up by one, the last row's are blanked and the attributes stay. |
| Screen.CharacterGoesToCursor | lib.c:289-306 | Any other character goes into the cell at the cursor with attribute 7, no other cell changes, and the cursor moves one on, to the next row at the end of one; past the last cell the rows move up. |
| Screen.BackspaceErases | lib.c:274-287 | Backspace goes back one cell, across the row's start too, and blanks it; at the top-left it does nothing. |
| Video.PutcRefines | lib.c:247-324 | One putc on the redirected shared display is one character on the terminal it is meant for, and no change to the other two. |
| Video.SwitchRefines | terminal.c:176-191 | Switching changes which terminal is visible and no terminal's screen or cursor. |
| Video.SwitchMovesCursor | terminal.c:176-191 | In every state, the stuck one included, a switch keeps the shared cursor for the terminal that goes and puts the shared cursor and the VGA registers where the terminal that comes left its own. |
| Video.StepRefines | lib.c:247-324 | A step leaves the display settled (0xB8 identity-mapped, shared cursor and VGA register those of the visible terminal) if and only if it is not a backspace printed by a background process at its top-left; and then it is the three-terminal step. |
| Video.RunRefines | lib.c:247-324 | Every run stays settled throughout if and only if no step is such a backspace, and then equals three independent terminals. |
| Video.TerminalsAreIndependent | lib.c:251-257 | In every run a terminal's screen is a function of what was addressed to it: process output to the scheduled one, echo and clear to the visible one. |
| Video.EachTerminalShowsItsOwnTape | lib.c:227-324 | End to end: in every run each terminal's screen is the last-25-rows window of the tape of exactly its own bytes. |
| Video.StuckBackspaceExample | lib.c:276-277 | A concrete run after which the display is not settled: the early return leaves the redirection in place. |
| Video.StuckBackspaceMisdirectsEcho | lib.c:276-277 | After it, the next typed key is drawn on the background terminal's page and not on the visible one's. |
| Video.Boot | lib.c:21-31 | The cleared screen after initialisation is settled, whatever video memory held. |
| DisplayDriver.FrameReplaced | paging.c:207-218 | Writing inside one physical page changes that page and none of the other three. |
| DisplayDriver.Display.constructor | terminal.c:19-38 | The display starts identity-mapped with all cursors at the top-left. |
| DisplayDriver.Display.WriteByte | lib.c:289-295 | A store to virtual page 0xB8 changes one byte of the physical page its table entry names. |
| DisplayDriver.Display.RedirectVidmemPage | paging.c:230-244 | The entry names 0xB8 for the visible terminal and 0xB9+t for the others; ids out of range change nothing. |
| DisplayDriver.Display.MoveCursor | lib.c:192-205 | The shared cursor is set and the VGA registers hold its 16-bit position. |
| DisplayDriver.Display.Scroll | lib.c:227-240 | The in-place loop, first row first, moves every row up one and blanks the last, whichever page is mapped. |
| DisplayDriver.Display.ClearScreen | lib.c:21-31 | The loop blanks every cell with attribute 0x07 and homes the visible cursor. |
| DisplayDriver.Display.Draw | lib.c:263-306 | The drawing part of putc does the character to the mapped page and the shared cursor, or reports the early return and changes nothing. |
| DisplayDriver.Display.PutChar | lib.c:247-324 | putc on real video memory does to the whole state what the model's putc does. |
| DisplayDriver.Display.CopyFrame | paging.c:213-216 | A 4 KB memcpy makes one physical page equal another and changes nothing else. |
| DisplayDriver.Display.ChangeTerminalVideoPage | paging.c:207-218 | Saves the screen to the old terminal's page and loads the new one's; ids out of range change nothing. |
| DisplayDriver.Display.SwitchTo | terminal.c:176-191 | Copies, cursor save and cursor move together are the model's terminal switch. |
| DisplayDriver.Display.Perform | lib.c:247-324 | Any run of the driver on real memory is, while no background process is stuck, three independent terminals. |
| Strings.Strlen | lib.c:387-392 | The length is the index of the first NUL. |
| Strings.Strncmp | lib.c:560-574 | Zero exactly when the two texts, cut at n, are equal; otherwise the signed difference at the first place they differ. |
| Strings.Strncpy | lib.c:597-608 | The destination field is the text cut at n and padded with NULs to n; nothing beyond n changes. |
| Keyboard.Shifted | keyboard.c:189-261 | Letters follow caps lock exclusive-or shift, other keys shift alone, and a printable key stays printable. |
| Keyboard.PadRoom | keyboard.c:172-183 | A tab adds eight spaces, or as many as there is room for under both limits. |
| Keys.KeyDoes | keyboard.c:28-271 | For each of the 256 scan codes and every state of the keys held, what the handler does to the console, from the characters printed on the keys: which code types which letter, digit or symbol, what the editing, modifier and function keys do, and that every other code does nothing. |
| Keys.KeysHeldFollow | keyboard.c:56-85 | In every run the modifier keys held are those whose last code was a press, and caps lock is on by the parity of its presses. |
| Keys.KeyTypesCharacter | keyboard.c:189-267 | So in every run the next key types the character printed on it, by the shift keys that are down and by caps lock. |
| Keys.AltShowsTerminal | keyboard.c:137-156 | F1, F2 and F3 show terminals 0, 1 and 2 if and only if Alt is held, and touch no line. |
| Keys.AltThenFunctionKey | keyboard.c:137-156 | The two keys in a row, from any console: Alt and the function key show that terminal. |
| Keys.ReleaseUndoesPress | keyboard.c:57-85 | Releasing a shift, Ctrl or Alt key undoes its press. |
| Keys.CapsTwiceIsNothing | keyboard.c:70-72 | Two presses of caps lock undo each other. |
| Keys.CapsTurnsLetter | keyboard.c:189-191 | A press of caps lock turns the case of the next letter over. |
| Keyboard.EditMatches | keyboard.c:97-184 | One key on the line buffer is one edit of the text. |
| Keyboard.LinesAreEdited | keyboard.c:28-271 | In every run that stays inside kb_buf each terminal's buffer is the fold of the keys received while it was visible and of its drains, those that fault included. |
| Keyboard.OverrunsExactly | keyboard.c:108-117 | A key would leave kb_buf if and only if all 128 bytes are already used, for Enter while reading or a typed key under any limit but one. |
| Keyboard.LinesStayInBounds | keyboard.c:166-170 | If no key edits a line between its Enter and its drain, no access leaves kb_buf and no line under edit exceeds 127 characters. |
| Keyboard.FaultsExactly | keyboard.c:108-267 | A step leaves kb_buf if and only if it is Enter while reading, or a typed key under any limit but one, on a line that fills all 128 bytes, or a drain (whether or not its copy then faults) of a submitted line that is empty. |
| Keyboard.RunFaultsExactly | terminal.c:116-122 | A run stays inside kb_buf if and only if no step meets that condition. |
| Keyboard.EraseAfterEnterFaults | terminal.c:116-122 | The shortest run that leaves it: Enter, backspace and a look at the flag, on an empty line, after which the drain looks before the first byte. |
| Keyboard.FreshConsoleIsOk | terminal.c:19-38 | The lines that initialisation leaves are in order, empty and not being read. |
| Keyboard.HappenShows | keyboard.c:97-134 | What a key, a print or a tick does to the display is the run of the events it shows. |
| Keyboard.ReadingStartsAgreed | terminal.c:97-101 | Reading with an empty buffer starts with screen and buffer in agreement, wherever the cursor is. |
| Keyboard.EchoedTape | keyboard.c:97-134 | Every key before Enter, Ctrl-L included, keeps the tape cells from the line's origin equal to the buffer and inside the window. |
| Keyboard.OthersStayAway | keyboard.c:48-51 | Nothing that other terminals do reaches a waiting terminal's line or screen. |
| Keyboard.EchoStep | keyboard.c:97-186 | One happening of any kind keeps a waiting terminal's screen and line buffer in agreement, whatever state the other terminals' lines are in. |
| Keyboard.EchoAgreesUntilEnter | keyboard.c:97-267 | In every run up to this terminal's Enter that stays inside kb_buf, whatever reaches the other terminals, the cursor is just past the line and the cells before it hold the buffer. |
| Keyboard.EchoOnScreen | keyboard.c:97-106 | What agreement means on the 80x25 page: the whole line is on the screen in order, the cursor follows it, and a non-empty line never has the cursor at the top-left. |
| Replies.DrainReturnsLine | terminal.c:109-134 | terminal_read returns the length of the line with its newline, and as many of its bytes as the caller has room for. |
| Replies.DrainReturnsText | terminal.c:109-134 | What a drain hands over, late keys or not: the text of the line less one character after its newline, its length and as many bytes as there is room for. |
| Replies.DrainDropsOneLateKey | terminal.c:116-122 | One extra printable character after the newline changes nothing of what is returned. |
| Replies.LateKeyExactly | terminal.c:116-122 | One key that reaches a submitted line leaves the reply as it was if and only if it does not erase, does not submit again for a reader, and adds at most one character. |
| Replies.EraseAfterEnterLosesNewline | keyboard.c:97-106 | A backspace after Enter takes the newline and the last character from the reply: ab gives a. |
| Replies.ReplyIsTheFold | terminal.c:91-135 | In every run that stays inside kb_buf, however late the keys and whatever happens on the other terminals: the reply is the fold of all the keys the terminal received, less one character after the newline. |
| Replies.LineIsReturnedExactly | terminal.c:91-135 | In every such run the submitted line is what terminal_read hands over if and only if the keys after Enter, all applied, leave the line as it was or with one more character that is not a newline. |
| Replies.SentEndsInNewline | keyboard.c:108-117 | The submitted line, the fold of the keys up to Enter, ends with the newline. |
| Replies.SubmittedLineWaits | keyboard.c:97-184 | In every run in which each Enter is followed, before its drain, by at most one character and no erase or second Enter, the text that waits is the submitted line with at most that character after it. |
| Replies.ToEnterEndsWithEnter | keyboard.c:108-117 | The part of a run that a submitted line comes from ends with the Enter key of its terminal, pressed while its process was reading. |
| Replies.TypedLineIsReturned | terminal.c:91-135 | So in every such run terminal_read hands over the fold of the keys its terminal received up to Enter, newline last and only there, for every length of the caller's buffer. |
| Replies.FaultedLineIsReadNext | terminal.c:106-134 | If the copy to the reader's buffer faults, the line stays submitted: the next terminal_read of that terminal is handed it without any key. |
| Limits.ReadSetsLimit | terminal.c:97-101 | A read of n bytes sets the shared limit to n and echo for its own terminal, and changes nothing else. |
| Limits.DrainResets | terminal.c:106-134 | A drain leaves an all-NUL empty line that nobody reads and the limit 128, and changes nothing else. |
| Limits.LineFitsRequest | keyboard.c:166-183 | In every run in which the limit is the reader's own whenever a key reaches its terminal, the line it is handed, newline included, is no longer than it asked for. |
| Limits.SharedLimitExample | terminal.c:98 | The limit is shared by the terminals: after another terminal's read of 100 bytes, a reader that asked for 2 is handed 3. |
| KeyboardDriver.KeyboardDevice.constructor | terminal.c:19-38 | Three empty lines with separate buffers, no modifier held. |
| KeyboardDriver.KeyboardDevice.SetFlags | keyboard.c:57-85 | The modifier flags follow presses and releases. |
| KeyboardDriver.KeyboardDevice.DoErase | keyboard.c:97-106 | Backspace drops the last character and echoes only if there was one. |
| KeyboardDriver.KeyboardDevice.DoSubmit | keyboard.c:108-122 | Enter stores the newline, sets the flag and echoes, or does nothing when no process is reading. |
| KeyboardDriver.KeyboardDevice.DoRedraw | keyboard.c:124-134 | Ctrl-L clears the screen and, for a reader, prints the buffer again. |
| KeyboardDriver.KeyboardDevice.DoPad | keyboard.c:172-186 | The tab loop adds exactly the spaces that fit, echoing each. |
| KeyboardDriver.KeyboardDevice.DoType | keyboard.c:263-267 | A typed character is stored and echoed, or ignored at the limit. |
| KeyboardDriver.KeyboardDevice.KeyboardHandler | keyboard.c:28-271 | The handler on real buffers and video memory does, for every scan code, what the model's key press does, which Keys.KeyDoes spells out. |
| KeyboardDriver.KeyboardDevice.TerminalReadBegin | terminal.c:91-101 | Starting a read sets the shared limit and the reading flag; a non-positive count changes nothing. |
| KeyboardDriver.KeyboardDevice.ClearKeyboardVars | terminal.c:48-57 | The loop leaves an empty, all-NUL line and touches no other terminal. |
| KeyboardDriver.KeyboardDevice.TerminalReadPoll | terminal.c:103-134 | One turn of the wait loop and, once Enter is seen, the drain: what it returns and what it leaves. |
| KeyboardDriver.KeyboardDevice.TerminalReadFault | terminal.c:106-125 | The drain up to a fault in its copy: echo off and one late character dropped, the Enter flag and the line still there. |
| TerminalDriver.WriteReachesOneTerminal | terminal.c:145-166 | terminal_write's bytes reach the scheduled terminal's tape in order and no other terminal, whichever is visible. |
| TerminalDriver.PlainTextLands | terminal.c:153-156 | Printable output is on the tape character for character after what was there. |
| TerminalDriver.PromptThenReadAgrees | terminal.c:153-163 | When the shell writes its prompt and reads, what was typed ahead is on the screen after the prompt, and screen and line buffer agree from there on. |
| TerminalDriver.TerminalWrite | terminal.c:145-166 | Returns the count (or -1 for a negative one) and prints the bytes and, after the shell's prompt, the type-ahead, whenever the calls it makes on the line buffer end. |
| TerminalDriver.ReprintEndsExactly | terminal.c:161-163 | The calls that the reprint makes on the line buffer never end if the buffer and kb_buf, erased bytes included, both begin with the prompt; otherwise there are at most two. |
| TerminalDriver.TypedPromptNeverEnds | terminal.c:161-163 | An input for the endless case: from any console on which nothing is typed or read at the visible terminal and no shift or caps lock is on, the keys 3 9 1 O S > and space make the next prompt's terminal_write call itself for ever. |
| Paging.RunsKeepBase | paging.c:29-196 | After any calls, every entry but the two user windows, the screen window and its slot is as init_paging left it. |
| Paging.UserReachesExactly | paging.c:150-196 | After any calls a user access reaches exactly the last program frame at 128-132 MB and the last video page at 256 MB, and faults everywhere else. |
| Paging.UserStaysOut | paging.c:150-196 | So it reaches only frames 2 to 7 or the pages 0xB8 to 0xBB. |
| Paging.KernelViewIsFixed | paging.c:66-104 | The kernel's 4-8 MB and the pages 0xB9-0xBB stay identity-mapped, and 0xB8 stays on a screen page. |
| Paging.SupervisorReaches | paging.c:66-196 | What the kernel itself reaches: the running process's frame at 128 MB, its own 4-8 MB, and otherwise only addresses below 4 MB; nothing between 132 MB and 256 MB is mapped. |
| Paging.CachingKeepsCoherence | paging.c:253-260 | Caching a translation of the current tables keeps the cache in agreement with them. |
| Paging.PageTables.constructor | paging.c:29-139 | The three filling loops build exactly the initial tables, whatever memory held. |
| Paging.PageTables.SetUserProg | paging.c:150-165 | Maps 128 MB to frame 2+pid, changes nothing else, and leaves no stale translation. |
| Paging.PageTables.SetUserVideo | paging.c:175-196 | Maps 256 MB to the scheduled terminal's screen page, changes nothing else, and leaves no stale translation. |
| Paging.PageTables.RedirectVidmemPage | paging.c:230-244 | Retargets virtual page 0xB8 and leaves no stale translation; ids out of range change nothing. |
| Paging.PageTables.FlushTlb | paging.c:253-260 | After the flush no cached translation is stale. |
| Paging.PageTables.Translate | paging.c:29-196 | The walk over the tables in memory, for user and supervisor accesses, gives what the value-level walk gives. |
| FileSystem.ReadData | file_system.c:83-106 | The byte loop delivers the file from the offset on, up to and including the byte at file_size, and touches nothing else of the buffer; FileSystem.DataReadIsTheFile says what the file is. |
| FileSystem.FlatIsTheFile | file_system.c:98-104 | Fetched byte by byte through the inode's block list, a file is its listed blocks one after another, cut at its size; the byte after it is the next one of the block listed there, or stray memory if none is. |
| FileSystem.DataReadIsTheFile | file_system.c:83-106 | A read delivers that file and the byte after it from the offset on, as far as was asked for, and nothing for an offset past the end or an inode past the count. |
| FileSystem.PiecesReassemble | file_system.c:83-130 | From any position, the pieces read until nothing comes join to the rest of the file. |
| FileSystem.FileReassembles | file_system.c:83-130 | For every sequence of positive requests until an empty read, the pieces join to the listed blocks in order, cut at the file size, plus the one byte past the end if and only if no prefix of the requests sums to the file size. |
| FileSystem.ReadDentryByName | file_system.c:29-47 | The search returns what the lookup finds, which FileSystem.LookupFinds spells out, or nothing. |
| FileSystem.LookupFinds | file_system.c:29-47 | A name of at most 32 bytes finds the first entry with that name: its name in 32 bytes, its type and its inode. |
| FileSystem.ReadDentryByIndex | file_system.c:57-70 | Returns the entry at an index below num_dentries, as FileSystem.IndexFinds spells it out, and nothing past it. |
| FileSystem.IndexFinds | file_system.c:57-70 | An index finds an entry if and only if it is below num_dentries, and then that entry's name, type and inode. |
| FileSystem.ListingIsTheDirectory | file_system.c:178-196 | Reads of the directory from position 0 give every name once in index order and then nothing for ever. |
| FileSystem.ListedNamesAreFound | file_system.c:29-47 | Looking up any listed name finds the first entry with that name, and its type and inode. |
| FileSystem.LookupFailsExactly | file_system.c:29-47 | Lookup fails if and only if the query is longer than 32 or equals no entry's name. |
| Command.ParseName | system_calls.c:150-172 | The first loop yields the name without leading spaces, up to the next space. |
| Command.ParseArg | system_calls.c:174-189 | The second loop yields the rest without its leading spaces, cut at 100 bytes. |
| Command.Parse | system_calls.c:150-189 | Both loops together, with the buffers zeroed beforehand. |
| Command.ParseInvertsPrint | system_calls.c:150-189 | Parsing padding, a space-free name, a gap and an argument gives back that name and the argument's first 100 bytes, inner and trailing spaces kept. |
| Processes.StackFindsPcb | system_calls.c:324 | The kernel stack of pid p starts four bytes below the end of its 8 KB, and masking it with 0xFFFFE000 gives the PCB of pid p. |
| Processes.StacksAreDisjoint | system_calls.c:130-132 | The 8 KB areas of different processes do not overlap. |
| Processes.LowestFree | system_calls.c:117-128 | The pid chosen is free and every lower one is in use; if none is free the search says so. |
| ProcessRuns.ViewsAgree | system_calls.c:243-279 | The terminal's PCB, the PCB found by masking, last_assigned_pid and directory entry 32 all name the same process. |
| ProcessRuns.BaseShellsExactly | system_calls.c:58-61 | A process is the root of its chain if and only if its pid is at most 2, if and only if it is its own parent. |
| ProcessRuns.RollbackRestores | system_calls.c:203-232 | Mapping a new process, unmapping it and mapping the caller again restores the tables exactly. |
| ProcessRuns.FailedExecuteIsHarmless | system_calls.c:110-232 | execute that finds no pid, no file or no ELF magic leaves the process table, terminals, TSS, tables and all that live processes own as they were. |
| ProcessRuns.LaunchedExecutePushes | system_calls.c:199-279 | A successful execute puts exactly one process, with the lowest free pid above 2, a fresh descriptor table and the parsed argument, on top of the caller's chain; every live process's record and frame is untouched. |
| Programs.LaunchesExactly | system_calls.c:117-232 | A command that names a file launches if and only if there is a free pid and the file starts with 0x7F E L F (bytes it does not have are what the stack held). |
| Programs.NoFileNoLaunch | system_calls.c:192-196 | A command that names no file, or has a name over 32 bytes, never launches. |
| Programs.ProgramIsLoaded | system_calls.c:198-255 | A launched process has at 0x08048000 in its own memory the first 100000 bytes of the file named by the directory's first such entry (the byte after the end with them), every other byte of its frame and all other frames are as before, it starts at the address in the file's bytes 24 to 27 without a video window, and its addresses from 128 MB on lead to that frame. |
| Programs.BootLoadsShells | scheduler.c:22-57 | After every tick of boot, each shell that is up has the file shell at its place in its own memory. |
| Programs.RestartLoadsShell | system_calls.c:58-61 | A base shell that ends is replaced by one freshly read from the file, in the same frame, and no other frame changes. |
| ProcessRuns.CloseAllCloses | system_calls.c:45-52 | halt's loop, which closes through the masked PCB, closes descriptors 2 to 7 of the halting PCB and nothing else. |
| ProcessRuns.ExitReturns | system_calls.c:41-99 | A child's halt frees its pid and closes its descriptors, puts the parent back on top of the chain with its TSS, mapping and (if it called vidmap) video window, and makes the parent's execute return the status, or 256 and clear the flag if the exception flag is set. |
| ProcessRuns.BaseExitRestarts | system_calls.c:58-61 | A base shell that halts is restarted in the same slot with a fresh descriptor table: the lowest free pid is its own. |
| UserMemory.StoreExactly | paging.c:150-196 | A program's store at any address: inside 128-132 MB it changes that one byte of its own frame, on the page at 256 MB it goes to the screen, and everywhere else it faults and changes nothing. |
| UserMemory.CopyStaysHome | system_calls.c:322-334 | A copy by the kernel to any address outside its own 4-8 MB, of any length, faulting or not, changes no frame but the running process's. |
| UserMemory.CopyLandsExactly | system_calls.c:322-334 | All bytes of such a copy go to the running process's frame if and only if the buffer is inside its 128-132 MB; then they are all there, in order, and nothing else has changed. |
| UserMemory.ReadLandsExactly | system_calls.c:322-334 | The same for read: what an open file or directory delivers lands whole in the reader's own frame, at the buffer, if and only if the buffer is inside its program's 4 MB. |
| UserMemory.BufferAtPcb | system_calls.c:324-333 | The failing input: a buffer at the address of a PCB is mapped to that PCB and not to the reader's frame. |
| UserMemory.VidmapFitsExactly | system_calls.c:461-471 | For every pointer that vidmap takes, the four bytes are mapped if and only if they end at or below 132 MB, and otherwise the store faults. |
| UserMemory.VidmapGivesWindow | system_calls.c:458-473 | vidmap refuses a pointer outside 128-132 MB and changes nothing; otherwise it opens the window, and when the word fits below 132 MB the program finds 256 MB in it and every other byte as it was, and when not no byte changes. |
| UserMemory.CallKeepsInv | system_calls.c:322-473 | open, close, read, getargs, vidmap, a store at any address and a visible switch touch only what the current process owns and keep the forest, whether or not a fault then ends the process. |
| KernelRuns.TickRotates | scheduler.c:44-76 | A tick saves the current context, moves to the next terminal, resumes its process and moves the TSS, the program page and the 256 MB window to it. |
| KernelRuns.WindowAfterSwitch | scheduler.c:59-64 | After a visible switch the 256 MB window still shows the scheduled terminal's screen if and only if that terminal's visibility did not change. |
| KernelRuns.StepKeepsInv | system_calls.c:41-279 | Every step, one that ends in a fault included, keeps the forest and the agreement of all views, and changes no live process but the current one. |
| KernelRuns.RunKeepsInv | system_calls.c:41-279 | So does every run, of any interleaving of ticks, execute, halt, exceptions, open, read, getargs, close, vidmap, stores and switches. |
| KernelRuns.VidmapAtTheEnd | system_calls.c:461-471 | vidmap at 132 MB: the process ends in a fault; a child's parent gets 256 from execute, and a base shell is restarted with the exception flag left set. |
| KernelRuns.UserReachesOwnFrame | paging.c:150-196 | In every run a user access reaches only the running process's own frame and at most one screen page. |
| KernelRuns.EndComesBack | system_calls.c:41-99 | A child that ends, by halt or by a fault in anything it does, gives its parent the status or 256 and its window back, and no process but the child changes. |
| KernelRuns.ExecuteReturns | system_calls.c:41-309 | For every run from a successful execute until the caller's chain is first as short as before, whatever the child, its descendants and the other terminals do: the run ends with the child's exit or fault, the caller resumes at its saved context with its record, descriptors, frame, TSS, mapping and video window, and execute returns the child's status, or 256 exactly if the child caused an exception or the flag was stale. |
| KernelRuns.HaltUndoesExecute | system_calls.c:41-309 | In particular a child that halts at once leaves its parent as it was before the execute, with the child's status. |
| KernelRuns.FlagIsStaleCrash | system_calls.c:58-86 | In every run the exception flag is set if and only if a base shell has caused an exception and no child has ended since (or it was set at the start). |
| KernelRuns.StaleExceptionExample | system_calls.c:58-86 | After a base shell caused an exception, the next child to halt makes execute return 256, whatever its status. |
| Scheduling.SchedulesRoundRobin | scheduler.c:52-53 | After n ticks the scheduled terminal is n further on, modulo three. |
| Scheduling.HoldsItsContext | scheduler.c:44-50 | A descheduled terminal's head process holds the context of the last tick that descheduled it, in every run. |
| Scheduling.ResumesWhereItStopped | scheduler.c:61-76 | From the initial state, every tick after boot resumes the next terminal with exactly the context saved when it was last descheduled, during boot or since, with its own screen behind the 256 MB window, although new children start with empty contexts. |
| Scheduling.FiveTicksBoot | scheduler.c:22-57 | From the initial state the three shells are up, with pids 0, 1 and 2, after five ticks and not before. |
| Scheduling.BootIsHolding | scheduler.c:44-57 | After boot terminals 0 and 1 hold the contexts of the second and fourth ticks. |
| Scheduling.ReachableIsForest | scheduler.c:18-78 | Every state reachable from the initial one after those five ticks is a forest of three chains in which every view of the current process agrees. |
| Descriptors.OpenTakesLeastFree | system_calls.c:364-408 | open returns the least free descriptor of 2 to 7, at position 0; it fails if and only if the name is not found or all six are in use, and then changes nothing. |
| Descriptors.StdStaysOpen | system_calls.c:134-148 | From the initial state on, during boot and in every run after it, descriptors 0 and 1 of every live process are open on the terminal. |
| Descriptors.NewProcessIsFresh | system_calls.c:134-148 | A process that becomes live has descriptors 0 and 1 open and 2 to 7 closed. |
| Descriptors.FileIsAStream | file_system.c:120-130 | In every run a regular file's position is the sum of its own process's requests on its own descriptor (those with a null buffer are refused before it moves), and what those reads deliver are the consecutive pieces of the file. |
| Descriptors.OpenStartsAStream | system_calls.c:379-405 | A successful open of a regular file makes the descriptor that file, by the inode of the directory's first entry with that name, at position 0. |
| Descriptors.FileIsReadWhole | system_calls.c:322-408 | End to end, with anything interleaved: open by name, then reads until nothing comes, deliver the blocks that the entry's inode lists, in order and cut at the file size, and one byte more unless some number of the requests adds up to it. |
| Descriptors.FittingRead | system_calls.c:322-334 | A read whose delivered bytes fit in the program's 4 MB does not fault and puts exactly those bytes at the buffer. |
| Descriptors.OneBigRead | file_system.c:98-106 | One read with room for the whole file puts the file and the byte after it into the program's memory; the next finds nothing. |
| Descriptors.OpenStartsAListing | system_calls.c:379-405 | A successful open of the directory makes the descriptor the directory at position 0. |
| Descriptors.DirectoryIsListed | file_system.c:178-196 | In every run the reads of such a descriptor deliver the names of the directory, each once and in order, and after the last nothing. |
| Descriptors.ReadReturns | system_calls.c:322-334 | What read returns: the bytes that are left of a file up to the request, the request for a name, 0 when there is no more, -1 for an operation that fails. |
| Arguments.ArgStays | system_calls.c:174-189 | A child's argument field is what its execute wrote for as long as it lives, in every run. |
| Arguments.FieldIsArgument | system_calls.c:150-189 | The field that execute makes of a printed command line is the argument, cut at 100 bytes or padded with NULs. |
| Arguments.ArgumentArrives | system_calls.c:437-448 | From the parent's command line to the child's memory, whatever ran in between: getargs puts the argument where the child asked for it and changes nothing else. |
| Arguments.RefusedArgs | system_calls.c:442-443 | getargs changes nothing for a null buffer, a request below 100 bytes, or a process without an argument. |
| KernelDriver.ImageLands | system_calls.c:198-203 | A program read into one frame changes that frame's image and no other byte of user memory. |
| KernelDriver.KernelState.constructor | terminal.c:19-38 | The globals start in the initial state. |
| KernelDriver.KernelState.FindFreePid | system_calls.c:117-128 | The loop finds the lowest free pid, or reports that there is none. |
| KernelDriver.KernelState.SetUpSlot | system_calls.c:130-189 | The loops over the descriptor array and the argument field give the prepared slot. |
| KernelDriver.KernelState.LoadProgram | system_calls.c:198-203 | Maps the frame and reads the program through the mapping into it. |
| KernelDriver.KernelState.ReadFour | system_calls.c:210-255 | The four bytes of the magic number and of the entry address are the file's, with stack garbage after a short read. |
| KernelDriver.KernelState.Launch | system_calls.c:234-305 | The in-place updates of the PCB, process table, terminal and TSS are the model's launch, at the entry address. |
| KernelDriver.KernelState.Execute | system_calls.c:110-309 | execute in place, every branch, does to the whole state what the model's execute does and reports whether it launched. |
| KernelDriver.KernelState.Close | system_calls.c:417-427 | close in place is the model's close, through the masked PCB; it returns 0 for an open file, directory or clock and -1 for everything else. |
| KernelDriver.KernelState.Open | system_calls.c:364-408 | open in place, with its search loop, is the model's open and returns its descriptor. |
| KernelDriver.KernelState.StoreByte | paging.c:150-196 | One byte stored through the tables in memory goes where the model's store puts it, or faults. |
| KernelDriver.KernelState.ReadFile | file_system.c:83-106 | The byte loop of read_data over the caller's memory is the model's copy of what the file delivers, up to the first fault. |
| KernelDriver.KernelState.Read | system_calls.c:322-334 | read in place is the model's step, the exit after a fault included; it reports the fault, and otherwise returns the count of a file, a directory or an operation that fails, and -1 for a bad descriptor or a null buffer. |
| KernelDriver.KernelState.ReadDir | file_system.c:178-196 | One directory read: the padded name copied to the caller's memory and the next position, or nothing. |
| KernelDriver.KernelState.GetArgs | system_calls.c:437-448 | getargs in place is the model's step, the exit after a fault included, and returns 0 exactly when it copies. |
| KernelDriver.KernelState.UserStore | idt.c:173-176 | A program's store through the tables in memory is the model's step, the exit after a fault included. |
| KernelDriver.KernelState.Vidmap | system_calls.c:458-473 | vidmap in place, with its range check, the window, the stored address and the exit after a fault, is the model's step; it reports the fault, and otherwise returns -1 exactly for a refused pointer. |
| KernelDriver.KernelState.CloseDescriptors | system_calls.c:45-52 | halt's loop in place is the model's closing. |
| KernelDriver.KernelState.ReturnToParent | system_calls.c:63-98 | The end of halt in place, with the choice of status, is the model's return to the parent. |
| KernelDriver.KernelState.Halt | system_calls.c:41-100 | halt in place, including the restart of a base shell, is the model's halt. |
| KernelDriver.KernelState.HaltWrapper | idt.c:173-176 | An exception sets the flag and halts with 255. |
| KernelDriver.KernelState.Scheduler | scheduler.c:18-78 | The scheduler in place is the model's tick, in boot and after it. |
| WholeKernel.RedirectionAgrees | paging.c:230-244 | The page-table model and the display model describe the same entry for 0xB8, and a terminal's screen is on the page that the page-table model names for it. |
| WholeKernel.StepKeepsWhole | scheduler.c:52-64 | Processes and terminals as one state: every step keeps the forest and the agreement on which terminal is shown and which runs. |
| WholeKernel.RunKeepsWhole | scheduler.c:52-64 | So does every run of timer ticks, keys, system calls, stores, faults, prints and terminal reads. |
| WholeKernel.TogetherAfterBoot | scheduler.c:22-57 | The state after boot is one from which these runs start. |
| WholeKernel.OwnChainOnly | scheduler.c:52-64 | The running process is in the chain of the scheduled terminal and of no other. |
| WholeKernel.ScreenIsItsProcesses | lib.c:247-324 | In every run of the whole kernel each terminal's screen shows exactly what the processes of its own chain printed while they ran and the keys echoed while it was shown. |
| WholeKernel.ReplyIsItsTerminals | terminal.c:91-135 | In every run of the whole kernel, what a process's terminal_read hands over is the fold of the keys received at the terminal whose chain it is in, and the drain leaves the other terminals' lines alone. |
| WholeKernel.FaultEndsReader | idt.c:173-176 | A reader whose line cannot be copied to it ends in the fault: it leaves its chain, its parent's execute returns 256, and nobody reads the line any more. |
| WholeKernel.WindowIsOwnScreen | scheduler.c:59-64 | After every tick the 256 MB window of the process that goes on is the page that holds its own terminal's screen. |
| Rtc.StepKeepsGood | rtc.c:63-72 | An interrupt never divides by zero or wraps a countdown, and keeps rate and countdown in range. |
| Rtc.VirtualRateIsExact | rtc.c:58-77 | n interrupts after its rate f was set, whatever other terminals do, an active terminal has had floor(n*f/1024) interrupts and the next is 1024/f - (n mod 1024/f) away. |
| Rtc.OthersKeepPhase | rtc.c:88-190 | Reads, rejected writes and all that other terminals do leave a terminal's rate and countdown alone. |
| Rtc.SettingStartsAPeriod | rtc.c:88-97 | open always, and an accepted write exactly when the clock is active, starts a full period at the new rate. |
| Rtc.OneReadPerInterrupt | rtc.c:108-114 | In every run, the reads that returned and the one still pending are no more than the terminal's interrupts. |
| Rtc.FlagIsExact | rtc.c:58-77 | In every run a terminal's flag is set if and only if its clock has fired since the flag was last looked at or the clock closed, or it was set at the start and left alone. |
| Rtc.WaitEndsExactly | rtc.c:108-114 | Undisturbed after a setting to rate f, the next look at the flag succeeds if and only if 1024/f interrupts have come (or the flag was set before): a waiting read returns then. |
| Rtc.ClosedIsSilent | rtc.c:184-190 | After a close the clock is inactive, its flag is clear and it never fires until the next open. |
| Rtc.AcceptsRate | rtc.c:134-167 | The bit loop accepts exactly the powers of two from 2 to 2048; of one-byte values, those from 2 to 128. |
| Rtc.RtcTerminals.OnInterrupt | rtc.c:58-77 | The interrupt loop in place ticks all three clocks once. |
| Rtc.RtcTerminals.Open | rtc.c:88-97 | open in place sets 2 Hz and a full countdown for the scheduled terminal only. |
| Rtc.RtcTerminals.Write | rtc.c:125-173 | write in place sets the rate exactly when the byte is a power of two from 2 to 128, and returns 0 or -1 accordingly. |
| Rtc.RtcTerminals.Poll | rtc.c:108-114 | One turn of the read loop returns exactly when the flag was set, and clears it. |
| Rtc.RtcTerminals.Close | rtc.c:184-190 | close in place clears the scheduled terminal's clock only. |
| Numbers.RoundTrip | lib.c:332-362 | A numeral in any radix from 2 to 36 decodes to its value, uses only digits of the radix, and has no leading zero. |
| Numbers.BackwardsReversed | lib.c:344-361 | Digits made lowest place first and then reversed are the numeral. |
| Numbers.WordLength | lib.c:107-116 | A 32-bit number has at most 32 digits in any radix, 10 in radix ten and 8 in sixteen, so the buffers suffice. |
| Numbers.Strrev | lib.c:368-381 | The in-place exchange reverses the string and touches nothing else. |
| Numbers.Itoa | lib.c:332-362 | itoa leaves the numeral and its NUL in the buffer and touches nothing else. |
| Numbers.FormatUnsigned | lib.c:107-114 | %u and %x print the numeral, which decodes to the value. |
| Numbers.FormatHex | lib.c:89-101 | %#x prints exactly eight hexadecimal digits that decode to the value. |
| Numbers.FormatSigned | lib.c:116-128 | %d prints a string that decodes to the signed value, for every 32-bit value including the least, whose negation wraps around. |

## Left out

- Port input and output, the PIC and PIT, descriptor tables and assembly linkage: scan codes, ticks and the VGA register value are inputs or state.
- Real kernel stacks, `iret` and the jump back into execute: a saved esp/ebp pair is a token, and `cpu` says where the processor goes on.
- A program's instructions: a process is any sequence of system calls, exceptions and stores at any addresses.
- Interrupts inside the copying of a file: `read` turns interrupts on (system_calls.c:323), and the model's read of a file or directory is one step; what may run meanwhile changes neither the file system nor the reader's record, frame and mapping (`KernelRuns.StepKeepsInv`).
- Command lines and file names in memory: execute and open take the bytes, and a fault in reading them is an exception of the process, which is an event of its own.
- Null pointers as arguments of execute, open, write and the terminal's drivers: each is refused by an early return before anything else happens.
- Bytes that a copy or a store sends to a screen page: user memory is the state that it changes here, and the display model has only what goes through putc and clear.
- The clocks are modelled beside the rest of the state, not inside it: `scheduled` is an input to them, so that open of the clock device appears as a step of each.
- Negative counts given to read of a file: requests are natural numbers (the position itself wraps at 32 bits).
- Programs before the third shell is up: boot is five timer ticks with no system call between them, as the keyboard is off until then.
- The scheduler when the shell cannot be loaded at boot: it then goes on through a null PCB pointer.
- A block number past the end of a file that names unmapped memory: reading the byte there is taken to give some byte.
- set_handler, sigreturn, the constant open, close and write stubs and exception messages: they change none of the modelled state.
- The kernel's own test routines: they are not part of what it does.
- printf's %s, %c and %% and its parsing of the format: only the number formats are modelled.
- memset_word, memset_dword and strcpy: nothing in the modelled components calls them.
- Strings.Strncpy: asks for one readable byte past the limit, because the loop tests the source byte before it tests the count.
- TerminalDriver.TerminalWrite: asks that the reprint ends, since otherwise the C function does not return.
- KernelDriver.KernelState.Read: says nothing of what the terminal's and the clock's read drivers return; those are KeyboardDriver.KeyboardDevice.TerminalReadPoll and Rtc.RtcTerminals.Poll.
- KernelDriver.KernelState.Open: does not call the clock's own open, which is Rtc.RtcTerminals.Open on the clocks' state.
- KernelDriver.KernelState.Close: does not call the clock's own close, which is Rtc.RtcTerminals.Close on the clocks' state.
- KernelDriver.KernelState.Scheduler: leaves out the boot message and the enabling of the keyboard, which belong to the display and to the interrupt controller.

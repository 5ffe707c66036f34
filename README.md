# dns-manager: the resolv.conf state machine, its change watcher and its command router

dns-manager is a terminal tool that points the system resolver at a chosen
nameserver by overwriting `/etc/resolv.conf`. Before its first write it backs
the original up to `/etc/resolv.conf.bak`; it can restore that backup, report
the current status and watch the file for outside edits. This project models
the tool's core in Dafny and proves properties of the model:

- the state: the live file text, an optional backup text, the session flag
  `didModify` and whether the process runs as root;
- the four operations on it: backup-once, set, restore and status. Set and
  restore sit behind the root gate;
- the watcher's compare-and-report loop;
- the command router: trim the line, take a lone digit 0 to 5 as a menu entry,
  otherwise split on white space and switch on the first word.

Files and modules:

- `wrappers.dfy` (`Wrappers`): `Option`.
- `strings.dfy` (`Strings`): the JavaScript string operations the code relies
  on, with their meaning proved. These are `trim`, `split(/\s+/)` and
  `includes`. White space is the ECMAScript WhiteSpace and LineTerminator set.
- `resolv.dfy` (`Resolv`): the state machine as pure step functions
  `Backup`, `Set`, `Restore` and `StatusOf`. `Run` folds a sequence of
  operations. The lemmas cover runs of any length.
- `manager.dfy` (`Manager`): class `DnsManager`. Its fields are the ones the
  program mutates (the two files and `didModify`), plus a `const isRoot`. Each
  method is proved to move the object exactly as the matching step function
  says.
- `watcher.dfy` (`Watcher`): `Watch` is a `while` loop that folds a finite
  sequence of notifications. It is proved equal to the recursive
  specification `Fold`, and the watcher's properties are proved about `Fold`.
- `router.dfy` (`Router`):
  - `ParseLine`/`Parse` parse a line, with lemmas stating each command by the
    first word of the trimmed line.
  - `Dispatch` is `processCommand` as a function of the state, and
    `ProcessCommand` is the same on a `DnsManager`.
  - `Session` is the interactive loop. `SessionIsRun` reduces any session to a
    `Run` of set and restore calls, so the state machine's lemmas hold for
    whole sessions.

Inputs to the model:

- The file system is abstract.
- Every copy (the `cp` subprocess), write (`writeFileSync`) and read
  (`readFileSync`) takes an explicit success flag (`copyOk`, `writeOk`,
  `readOk`), so the "nothing changes on failure" cases can be stated.
- What the user types at the custom-IP prompt is an input (`Env.answer`).
- The file-system notifications are a finite `seq<WatchEvent>`.
- Root is a constructor argument.

Where the code and its design description differ, the model follows the code:

- A line whose first word is `exit` ends the session even when more words
  follow (`exit now`), not only a line that is exactly `exit`
  (`Router.ParseQuit`).
- "Modified by this tool" is a substring test for `# Modified by dns-manager`.
  So it cannot tell a file the tool wrote from a restored original that
  already contained that line. The model states the substring test, and
  `didModify` is tracked separately.
- A failed write after a successful first backup keeps the new backup; only the
  live file and the flag are left unchanged (`Resolv.Set`).

## Model

| member | source | states |
|---|---|---|
| `Resolv.Backup` | index.ts:55-60 | never touches the live file or the flag; with a backup present nothing changes and it succeeds; with none, it succeeds iff the copy does, and the new backup equals the live text; on failure nothing changes |
| `Resolv.Set` | index.ts:63-84 | without root: no change, refused. Success iff root, the backup step succeeds and the write succeeds. On success the live file is the marker line, `nameserver X` (X defaults to 1.1.1.1) and `nameserver 1.0.0.1`, a backup exists and `didModify` is set. Otherwise live and flag are unchanged. A failed first backup changes nothing. As root with no backup, a successful copy leaves the backup equal to the old live text even when the write then fails. An existing backup is never overwritten. Every failure as root is reported as `Failed` |
| `Resolv.Restore` | index.ts:63-99 | without root: no change, refused. With no backup: no change, "no backup" reported. Success iff root, a backup exists and the copy works; then live equals the backup, the backup is kept and `didModify` is cleared. A failed copy with a backup present changes nothing and is reported as `Failed`. Otherwise nothing changes |
| `Resolv.StatusOf` | index.ts:101-111 | the report holds the live text; "modified" iff the marker occurs as a substring; "backup exists" iff there is a backup |
| `Resolv.StatusAfterSet` | index.ts:77-79 | after a successful set, status reports both "modified" and "backup exists" |
| `Resolv.ApplyTracks` | index.ts:55-60 | one set or restore keeps the invariant that, before any backup exists, the live file is still the original, and any backup holds the original |
| `Resolv.RunTracks` | index.ts:74-98 | the same invariant holds over any sequence of sets and restores, with any failures |
| `Resolv.RunKeepsBackup` | index.ts:56-57 | once a backup exists, its content never changes, whatever runs after |
| `Resolv.RunWithoutRoot` | index.ts:63-72 | without root, any sequence of sets and restores leaves the state unchanged |
| `Resolv.RunKeepsRoot` | index.ts:20 | no operation changes the root flag |
| `Resolv.RunAppend` | index.ts:326-333 | running two sequences of calls one after the other is running their concatenation |
| `Resolv.RestoreBringsBackOriginal` | index.ts:86-95 | starting with no backup and original text O, a successful restore after any sequence of calls leaves live equal to O, with `didModify` false |
| `Resolv.SetsThenRestore` | index.ts:74-95 | starting as root with no backup and text O, one or more successful sets leave the backup equal to O, and a restore then succeeds with live O and the flag cleared |
| `Manager.DnsManager.constructor` | index.ts:17 | a new session starts with `didModify` false and the given files and privilege |
| `Manager.DnsManager.BackupOriginal` | index.ts:55-60 | moves the object exactly as `Resolv.Backup`; `ok` is false iff the copy was attempted and failed |
| `Manager.DnsManager.ModifyDns` | index.ts:74-84 | moves the object and reports the outcome exactly as `Resolv.Set`; it calls `BackupOriginal` before any write |
| `Manager.DnsManager.RestoreOriginal` | index.ts:86-99 | moves the object and reports the outcome exactly as `Resolv.Restore` |
| `Manager.DnsManager.ShowStatus` | index.ts:101-114 | changes nothing. It returns a report iff the read succeeds. The report holds the live text, "modified" iff the marker occurs in it, and "backup exists" iff a backup exists |
| `Watcher.Watch` | index.ts:117-145 | the loop's reports, the final kept text and the failure flag equal the specification `Fold` from the initially read text |
| `Watcher.FoldNoRepeats` | index.ts:133-138 | the first report differs from the initial text and no two consecutive reports are equal |
| `Watcher.FoldKeepsLastReport` | index.ts:123-138 | the kept text is the last report, or the initial text when nothing was reported, so it changes only when a report is made |
| `Watcher.FoldReportsChanges` | index.ts:130-133 | every report is the re-read text of some `change` notification |
| `Watcher.FoldStopsAtBroken` | index.ts:142-144 | after the event source or a re-read fails, no later notification matters |
| `Watcher.OneEditOneReport` | index.ts:129-139 | one outside edit to a new text is reported exactly once, however many notifications it raises |
| `Watcher.NoFurtherReport` | index.ts:133 | notifications that re-read the kept text report nothing |
| `Strings.Trim` | index.ts:215 | the result starts and ends with no white space, sits inside the input between two all-white-space runs, and an already trimmed string is returned unchanged |
| `Strings.SplitWs` | index.ts:246 | at least one piece and no piece contains white space; the first piece is the longest prefix without white space |
| `Strings.SplitSingle` | index.ts:246 | the split has a single piece iff the string has no white space |
| `Strings.SplitFirstEmpty` | index.ts:246 | the first piece is empty iff the string is empty or starts with white space |
| `Strings.SplitInnerWords` | index.ts:246 | no inner piece is empty, and the last piece is empty iff the string ends in white space |
| `Strings.SplitKeepsText` | index.ts:246 | joining the pieces gives exactly the non-white-space characters of the string, in order |
| `Strings.SplitTrimmedWords` | index.ts:215-246 | a trimmed non-empty line splits into non-empty words |
| `Strings.FirstPieceIsFirstWord` | index.ts:246-248 | the first piece is w iff w is the line's first white-space-delimited word |
| `Strings.Includes` | index.ts:104 | true iff the second string occurs as a contiguous block of the first |
| `Strings.IncludesPrefix` | index.ts:77 | a string includes each of its prefixes (the written body starts with the marker) |
| `Router.ParseLine` | index.ts:219-250 | a `set` argument, when there is one, is non-empty and has no white space |
| `Router.ParseQuit` | index.ts:224-263 | a trimmed line parses to exit iff it is `0` or its first word is `exit` |
| `Router.ParseSet` | index.ts:227-250 | set iff the line is `1` or its first word is `set`; the default server iff the line is exactly `1` or `set` |
| `Router.ParseCustomRestore` | index.ts:230-253 | a trimmed line asks for a custom address iff it is `2`; it restores iff it is `3` or its first word is `restore` |
| `Router.ParseStatusWatch` | index.ts:237-260 | a trimmed line shows the status iff it is `4` or its first word is `status`; it watches iff it is `5` or its first word is `watch` |
| `Router.ParseHelp` | index.ts:264-268 | a trimmed line parses to help iff its first word is `help`, `--help` or `-h` |
| `Router.ParseMenu` | index.ts:269-271 | a trimmed line parses to the menu iff it is empty or its first word is `menu` |
| `Router.ParseUnknown` | index.ts:272-274 | any other line is an unknown command: not a menu digit, its word is the line's non-empty first word, and the word is outside the vocabulary |
| `Strings.SplitAfterWord` | index.ts:246 | a word followed by white space or nothing is the first piece, and the rest splits on its own |
| `Strings.SplitAfterSpaces` | index.ts:246 | a leading white-space run gives one empty piece before the pieces of what follows |
| `Strings.SplitSetLine` | index.ts:246 | `set`, white space, then a word x: the first two pieces are `set` and x |
| `Router.SetUsesFirstArgument` | index.ts:246-250 | `set x ...` on a trimmed line sets server x, the first argument, whatever follows it |
| `Router.CommandOps` | index.ts:227-253 | a parsed command makes at most one set or restore call, and none exactly when it is not set, restore, or the custom-IP prompt with a non-empty trimmed answer |
| `Router.OpsOf` | index.ts:227-253 | a line makes at most one set or restore call |
| `Router.Effects` | index.ts:223-274 | the session continues iff the command is not exit; the new state is the run of the command's calls; commands other than set, custom-IP and restore leave the state unchanged; the custom-IP prompt with an empty answer and an unknown word change nothing and say so |
| `Router.Dispatch` | index.ts:214-281 | the session continues iff the line does not parse to exit. The new state is the run of the line's calls. Every command other than set, custom-IP and restore leaves the state unchanged. Entry 2 with an empty trimmed answer changes nothing. An unknown word changes nothing and is reported |
| `Router.Perform` | index.ts:223-274 | carries out a parsed command through the manager's methods and `Watch`; the manager's new state, the reply and the continue flag are exactly those of the switch `Effects` |
| `Router.ProcessCommand` | index.ts:214-281 | trims and parses the line, then performs it: moves the manager, and returns the reply and the continue flag, exactly as `Dispatch` |
| `Router.SessionIsRun` | index.ts:326-333 | a session of lines, stopped by the first exit, is the run of the set and restore calls its lines make |
| `Router.RestoreAfterSession` | index.ts:55-95 | in any session that starts with no backup and original O, a restore command that succeeds brings back exactly O |
| `Router.SessionKeepsBackup` | index.ts:56-57 | a backup present at the start of a session is there, unchanged, at its end |
| `Router.SessionWithoutRoot` | index.ts:63-72 | without root a whole session leaves the state unchanged |
| `Router.SetStatusRestore` | index.ts:74-111 | from a fresh root session with original O: `set 9.9.9.9` writes the generated body and backs up O; `status` reports "modified" and "backup exists"; `restore` brings back O and clears the flag |
| `Router.ParseSetNine` | index.ts:246-250 | `set 9.9.9.9` parses to set with server `9.9.9.9` |
| `Router.ParseStatusWord` | index.ts:255-256 | `status` parses to the status command |
| `Router.ParseRestoreWord` | index.ts:252-253 | `restore` parses to the restore command |

## Left out

- Privilege elevation through `sudo` re-execution (`elevatePrivileges`) and the `isCompiled`/`chmod` logic of `main` are left out. They spawn processes and exit them.
- `isRoot` is a constant input. The effective user id check, including its absence on platforms without `getuid`, is reduced to that boolean.
- Presentation is left out: colours, `clearConsole`, menu and help text, the readline prompt, `keepTerminalOpen`, and the two-second pause before watch mode. The model returns a `Reply` value instead of printing.
- The exit-time advisory is left out; it is printed exactly when `didModify` is true.
- The real `fs.watch` subscription is an infinite event source that runs until interrupted. The model folds a given finite sequence of notifications. A failed subscription, a failed re-read or a throwing iterator is one `Broken` event, and a failed initial read is `readOk` false.
- Outside edits to the live file between commands are not part of the state. The session lemmas are about histories in which only the tool writes the files, and `Dispatch` for watch leaves the state as it was.
- Real file I/O and the shell `cp` are left out. A copy or write either happens completely or not at all; partial writes are not modelled.
- The one-shot command-line mode (`processCommand` on the joined arguments) is covered only as a single `Dispatch`.
- Nameserver addresses are not validated, in the code or in the model.
- Router.Session: each line is processed to completion before the next one starts. The program's line listener (index.ts:326-333) does not wait for a running `processCommand`. Lines pasted while a `cp` is pending, or typed during watch mode, start a second command concurrently: a set written during a pending restore copy is then overwritten by that copy, and two sets can both find no backup, so the second copy may back up the first set's body. `SessionIsRun`, `RestoreAfterSession`, `SessionKeepsBackup` and `SessionWithoutRoot` hold only for this serialized order of commands.

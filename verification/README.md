# VPN bot: several views of one truth, kept in step

The bot stores who may use the VPN in several places at once: rows in SQLite, `[Peer]` blocks in the AmneziaWG config and
the live interface, clients in a JSON config that an operator also edits, and a store file with a generation counter for
the MTProxy. This project models the code that keeps these views in step and proves what it keeps, over every run and for
every answer the outside world can give.

* `Sqlite`, `DatabaseProtocol`, `DatabaseLedger`, `DatabaseObject` (`db/database.py`): many asyncio tasks share one SQLite
  connection. The protocol is a state machine whose steps run one task from one suspension point to the next; the ledger
  balances what tasks ask for with what is sent; the class `Database` has the source's fields, and each of its methods is
  proved to take one step of the machine.
* `SqlLexer`, `SqlPragmas`, `StatementGate` (`db/database.py`): the lexer that decides whether a statement is a read or a write, and
  which step of the protocol a statement therefore is.
* `Text`, `Lines`, `Ipv4`, `IpAddress`, `IpSpelling`, `Ip6Spelling`: Python's string operations, `splitlines`, and `ipaddress`
  addresses and networks, with every text that spells one and the numbers a network holds.
* `AwgText`, `AwgGrammar`, `AwgMarkers`, `AwgPeers`, `AwgLayout`, `AwgFind`, `AwgCoverage`, `AwgRuns`, `AwgIdentity`
  (`adapters/awg_config.py`): printing, parsing and removing marked peer blocks, and what hand-written sections mean; over
  every run the text refines a map from key id to (public key, IP).
* `AwgStores` (`adapters/awg_config.py`): the config file and the live interface changed together, with rollback.
* `JsonTree`, `XrayDrift`, `XrayFindings`, `XrayInstall`, `XrayMerge`, `XrayPlaceholders`, `XrayLosses`
  (`deploy/backend-config-sync.py`): stripping the bot's region, comparing with a skeleton that has placeholders (which may
  end in a line feed, as `PLACEHOLDER_RE` allows), merging the two owners of the Xray config, what is written at every leaf,
  and what an accepted merge can lose.
* `XrayEdits`, `XrayOutcomes`, `XrayFootprint`, `XrayApply` (`adapters/xray_config.py`): the bot's edits of the same file, what
  each leaves, which of them the drift report notices, and installing them with rollback.
* `MtProxyStore`, `MtProxyChoice`, `MtProxy` (`adapters/mtproxy.py`): normalising secrets, the store document, applying it with rollback.
* `RateLimit` (`bot/rate_limit.py`): the fixed-window limiter and its bounded, least-recently-used table.
* `IpAllocation`, `IpLists`, `IpAsn` (`adapters/ip_allocator.py`, `config/validators.py`, `adapters/ip_asn.py`): the least
  free address, the list of networks as text, and the cached binary search over ASN ranges.
* `TelegramHtml` (`bot/messages.py`): cutting a message without breaking its tags.

Text is a sequence of characters, JSON a recursive datatype, and what a command, a file system call or a clock answers is a
parameter (the `...Answers` datatypes, `ok` flags and clock readings), so every theorem holds for all of them.

## What the code does not meet

Where a promise fails, the exact condition under which it holds is proved for all inputs, with an input on which it fails.

* `cursor.fetchall()` is not gated by the lock: a cursor opened earlier can step over another task's uncommitted rows
  (`FetchIsCleanIff`, `FetchCanSeeUncommitted`).
* A WITH statement that writes is taken for a read exactly when some CTE has a column list or a comment behind its body,
  or something other than `;` and a blank follows the main keyword (`UPDATE"t"`, `DELETE/**/FROM t`), unless something is
  glued to WITH itself; then every statement counts as a write, and so does a SELECT whose keyword does not stand alone
  (`WithStatementDecided`, `PlainStatementDecided`, `ColumnListHidesWrite`, `CommentHidesWrite`, `MissedWrites`).
* A PRAGMA that names its schema and gives its value in parentheses counts as a read (`PragmaDecided`,
  `SchemaHidesPragma`).
* Such a misread write does not wait for the lock when its task inherited the ContextVar. The ownership invariant, and
  serial interleaving, hold along a run exactly when no misread write succeeds inside another task's open transaction
  (`SafeNext`, `InterleavingsAreSerial`, `MisreadIff`, `MisreadSlipsIn`, `MissedWriteSlipsIn`).
* A write that starts with WITH makes the sqlite3 module open no transaction, so as the first write outside `transaction()`
  it commits itself: a rollback undoes such a write exactly when its statement begins with INSERT, UPDATE, DELETE or
  REPLACE (`RollbackUndoesIff`).
* A repeated `add_peer` whose `awg show` fails and whose `awg set` fails too rolls back a peer it never added, and an
  `add_peer` for a key id managed under another public key makes the runtime run ahead of the config (`AddIsAtomic`,
  `RepeatedAddCanDropPeer`, `OtherOwnerRunsAhead`).
* An `awg set ... remove` that works but reports failure is not undone by `remove_peer` (`RemoveIsAtomic`,
  `FailedRemoveCanDropPeer`).
* A `systemctl` reload, restart or is-active that raises instead of answering skips the restore: the Xray edit fails and
  stays in config.json. A failed edit leaves config.json as it was exactly when it failed before the replace, or its
  restore was reached and worked; the API path always reaches it (`PerformedLaw`, `RaisingReloadKeepsCandidate`).
* A client or short id edit changes the stripped config exactly when it has to create the list it writes to
  (`FootprintIsExcluded`), and the drift report exactly when, besides, the report looks at that inbound and the skeleton
  spells out the object the list is put in (`ReportNoticesIff`, `CreatedListShows`).
* `install-xray` counts the clients it read keyed by tag, so clients of a live inbound are lost without a refusal when
  the last live inbound with its key has another list (`LiveClientsConserved`, `DuplicateTagLosesClients`).
* Short ids of a live inbound are kept exactly when the last live inbound with its key has the same ones and the skeleton
  has an inbound with that tag that has REALITY settings or leaves them open (`LiveShortIdsConserved`,
  `NoRealityLosesShortIds`).
* Source addresses go back to the freedom outbounds by position: an address stays under its own tag exactly when the
  skeleton has a freedom outbound with that tag in the same place, or in a place that is given the same address
  (`LiveSendsConserved`, `ReorderingMovesAddress`).
* `install-xray` is to match inbounds by tag and never by position, but it also refuses when a placeholder has no value in
  the live inbound at its position (`RefusedAsOpenIff`, `OtherOrderIsRefused`).
* `[ Peer ]` is a peer section to the parser, but removal by identity looks for `[Peer]`: a peer with the removed key is
  left exactly when its header has blanks inside the brackets (`OtherSectionsSurvive`, `OddHeaderStays`).
* An IPv6 client is written as `ip/32`, which covers its whole /32 block and keeps every other address of the block from
  being added (`HostCovers`, `NeighbourIsCovered`).
* A changed ASN file with the same modification time and size answers from the old table (`AnswersAreCurrent`,
  `SameSignatureIsStale`).
* A secret with an empty fingerprint is stored but never read back, so applying the same set rewrites the store each time
  (`ReapplyIsNoOp`, `EmptyFingerprintIsLost`, `EmptyFingerprintRewrites`); a user secret whose fingerprint is
  `empty-placeholder` is missing from the runtime view (`StoredReadsBack`, `PlaceholderNameIsHidden`).
* The check for 32 hexadecimal characters lets a text with a blank, a sign, an underscore or an `x` pass when `int(s, 16)`
  takes it (`SecretIsHexIff`, `SignedSecretAccepted`).
* A refusal of the rate limiter names the seconds to wait rounded down, so a call after them can be refused again
  (`RetryIsEnoughIff`, `RetryCanBeTooSoon`).
* A capped message can come out longer than its limit, which it does not as long as the second cut drops no closing tag;
  a limit of zero gives the whole suffix (`FitsTheLimit`, `CanExceedTheLimit`).

## Model

| member | source | states |
|---|---|---|
| DatabaseProtocol.SafeNext | db/database.py:1985-2123 | an atomic step of any task keeps the ownership invariant (one lock, at most one of explicit and implicit owner, pending rows all by the holder) exactly when it is not a write that the lexer takes for a read and that succeeds inside another task's open transaction |
| DatabaseProtocol.InterleavingsAreSerial | db/database.py:1985-2123 | along an interleaving from a fresh connection the durable rows are at every moment the committed single-task units run one at a time in commit order and uncommitted writes the lock holder's own, exactly when no misread write slips into another task's open transaction |
| DatabaseProtocol.RunKeeps | db/database.py:1985-2123 | invariant, row consistency and the growth of the committed log hold along every run without such a slip |
| DatabaseProtocol.OutsidersCannotTouchUnit | db/database.py:1985-2123 | while one task holds the lock another task's step leaves the connection and the ownership alone exactly when it sends no misread write past the lock |
| DatabaseProtocol.MisreadSlipsIn | db/database.py:2073-2104 | a run in which a spawned task's misread write is part of its parent's transaction, without having waited for the lock |
| DatabaseProtocol.UnownedEndIsHarmless | db/database.py:1985-2017 | `commit()` or `rollback()` by a task that owns nothing never ends another task's unit; it reaches the connection only when nothing is pending |
| DatabaseProtocol.ReadIsCleanIff | db/database.py:2073-2104 | a read sees the committed prefix plus its own writes, unless the task inherited the ContextVar and another task has uncommitted writes; both directions |
| DatabaseProtocol.IndependentReadIsClean | db/database.py:2085-2104 | a task that never inherited the ContextVar reads no foreign uncommitted row |
| DatabaseProtocol.FetchIsCleanIff | db/database.py:2213-2229 | rows stepped by a later fetch are clean exactly when no other task has uncommitted writes at that moment |
| DatabaseProtocol.FetchCanSeeUncommitted | db/database.py:2173-2182 | a two-task schedule in which a fetch returns another task's uncommitted row |
| DatabaseProtocol.TransactionIsAtomic | db/database.py:2019-2071 | from the granted lock to the returned COMMIT or ROLLBACK, for any tree of nested blocks with inner commits, rollbacks and failures and any steps of other tasks at every moment but misread writes past the lock: exactly one BEGIN and one COMMIT or ROLLBACK, all writes durable together or none, none exactly when an exception leaves the outermost block; owner, depth, lock and ContextVar end where they started |
| DatabaseProtocol.OutermostExit | db/database.py:2050-2071 | leaving the outermost block ends the unit, whatever other tasks do while COMMIT or ROLLBACK is on its way, and gives lock, owner, depth and ContextVar back |
| DatabaseProtocol.TransactionBegins | db/database.py:2034-2049 | the outermost block issues one BEGIN on a connection with nothing pending, whatever other tasks do while it is on its way, and remembers the ContextVar; a failing BEGIN leaves rows, owner, depth and lock as they were |
| DatabaseProtocol.ImplicitUnitIsAtomic | db/database.py:1985-2017 | a commit by the implicit owner makes exactly its own uncommitted writes durable, a rollback drops exactly those, whatever other tasks do meanwhile, and the lock is free again |
| DatabaseProtocol.FailedWriteDropsUnit | db/database.py:2110-2123 | a failing implicit write drops the whole implicit unit with one ROLLBACK and frees the lock |
| DatabaseProtocol.RollbackUndoesIff | db/database.py:2073-2104 | a rollback undoes the first write of an implicit unit exactly when its statement made the sqlite3 module open a transaction |
| DatabaseLedger.EveryRequestIsSentOrHeld | db/database.py:1985-2123 | along every run and for every task: the raw operations sent for it, followed by the one it holds while it waits for the lock, are exactly those its calls asked for, in order; no write, BEGIN, COMMIT or ROLLBACK is dropped, doubled or sent out of turn |
| DatabaseLedger.GrantSendsHeld | db/database.py:2073-2108 | a granted lock sends the very operation the task waited with |
| DatabaseLedger.WhoWaits | db/database.py:1985-2108 | a call leaves its task waiting for the lock exactly when the task owns no unit (and, for a read, did not inherit the ContextVar) and, for reads and ends, the lock is taken; waiting changes nothing else |
| DatabaseLedger.EnterOutcome | db/database.py:2019-2040 | entering a block joins the own one, is refused after an uncommitted implicit write, or queues for the lock |
| DatabaseLedger.WriteOutcome | db/database.py:2073-2104 | a write runs in the unit its task owns, or waits with its statement as it is |
| DatabaseLedger.WriteStarts | db/database.py:2096-2104 | a waiting write that gets the lock becomes the first of a unit its task owns |
| DatabaseLedger.ReadOutcome | db/database.py:2073-2108 | a read or a fetch looks at the connection as it is then, at once or in its turn, and changes nothing |
| DatabaseLedger.FailedFetchDropsUnit | db/database.py:2213-2229 | a failing fetch inside `execute_fetchall` drops the implicit owner's unit with one ROLLBACK and frees the lock |
| DatabaseObject.Database.constructor | db/database.py:1985-2123 | a new object is the machine's initial state and satisfies the invariant |
| DatabaseObject.Database.EnterTransaction | db/database.py:2019-2040 | one step: join, refuse after an uncommitted implicit write, or queue for the lock |
| DatabaseObject.Database.BeginTransaction | db/database.py:2036-2042 | one step: take the lock and issue BEGIN |
| DatabaseObject.Database.ExitTransaction | db/database.py:2050-2071 | one step: only the outermost block issues COMMIT or ROLLBACK |
| DatabaseObject.Database.TransactionEnded | db/database.py:2058-2071 | one step: reset the ContextVar, disown, unlock |
| DatabaseObject.Database.ExecuteWrite | db/database.py:2073-2104 | one step: a write inside the task's own unit, or queueing for the lock |
| DatabaseObject.Database.WriteGranted | db/database.py:2073-2104 | one step: implicit ownership is taken with the first write |
| DatabaseObject.Database.WriteReturned | db/database.py:2173-2182 | one step: a failed implicit write drops the whole implicit unit |
| DatabaseObject.Database.ExecuteRead | db/database.py:2073-2108 | one step: a read runs at once for owner and inheritor and otherwise waits its turn |
| DatabaseObject.Database.ExecuteMisread | db/database.py:2073-2108 | one step: a write the lexer takes for a read passes the gate as a read |
| DatabaseObject.Database.EndUnit | db/database.py:1985-2017 | one step of `commit()`/`rollback()`: no-op inside the own block, end of the own implicit unit, or an unowned call that waits |
| DatabaseObject.Database.FetchRows | db/database.py:2213-2229 | one step: a fetch, raw or inside `execute_fetchall`, reads at once whoever holds the lock |
| DatabaseObject.Database.ReadReturned | db/database.py:2213-2229 | one step: only `execute_fetchall` and `execute_fetchone` drop the implicit unit when their fetch fails |
| DatabaseObject.Database.TransactionBegan | db/database.py:2036-2049 | one step: the block starts, or a failed BEGIN gives owner and lock back |
| DatabaseObject.Database.TurnGranted | db/database.py:2106-2108 | one step: a waiting reader or unowned `commit()`/`rollback()` takes and frees the lock and goes ahead |
| DatabaseObject.Database.ClearImplicitWriteOwner | db/database.py:2118-2123 | disowns and unlocks exactly when there is an implicit owner |
| SqlLexer.StripLeadingSqlNoise | db/database.py:2275-2290 | the loop drops leading blanks and comments as the specification function says |
| SqlLexer.NoiseIsStripped | db/database.py:2275-2290 | any mix of blanks and closed comments in front of a statement is dropped and nothing else |
| SqlLexer.SkipLexeme | db/database.py:2305-2330 | the inner loops move past one quoted text with doubled quotes, bracketed name, comment or plain character |
| SqlLexer.CteIsWrite | db/database.py:2293-2345 | the while loop over index and depth terminates and computes the scan |
| SqlLexer.ScanCtes | db/database.py:2293-2345 | for any number of CTEs with arbitrarily nested bodies of quoted text, bracketed names and comments: "write" exactly when the main keyword is a DML keyword that stands alone, no CTE has a column list, and none has a comment behind its body |
| SqlLexer.WithStatementDecided | db/database.py:2243-2345 | for every WITH statement behind any noise: when it counts as a write, and exactly when that agrees with the main SQL keyword being INSERT, UPDATE, DELETE or REPLACE |
| SqlLexer.PlainStatementDecided | db/database.py:2243-2272 | any other statement than WITH and PRAGMA is a read exactly when it is a SELECT or EXPLAIN whose keyword stands alone |
| SqlLexer.ColumnListHidesWrite | db/database.py:2335-2343 | at a CTE with a column list the scanner stops at the list and answers "read" whatever follows |
| SqlLexer.CommentHidesWrite | db/database.py:2335-2343 | at a comment behind a CTE body the scanner takes the comment for the main keyword and answers "read" |
| SqlLexer.MissedWrites | db/database.py:2335-2343 | two statements that write and are taken for reads: a quote glued to UPDATE, a comment behind the body |
| SqlPragmas.PragmaDecided | db/database.py:2348-2367 | behind any noise a PRAGMA is a write exactly when it has a `=` or its name, in any case, is one of the twelve listed ones |
| SqlPragmas.SchemaHidesPragma | db/database.py:2348-2367 | `PRAGMA main.user_version(5)` writes and counts as a read |
| SqlPragmas.OnlyNoise | db/database.py:2243-2290 | blanks, closed comments and a line comment that nothing ends are no write |
| SqlPragmas.UnclosedBlock | db/database.py:2284-2290 | a block comment that nothing closes counts as a write |
| SqlPragmas.NeverCloses | db/database.py:2305-2345 | text that closes no parenthesis cannot be placed by the scanner and counts as a write |
| StatementGate.MisreadIff | db/database.py:2073-2104 | a WITH statement that writes takes the read branch of the gate exactly when the lexer's answer about it is wrong |
| StatementGate.PlainDmlTakesTheLock | db/database.py:2243-2272 | a statement that begins with a DML keyword always takes the write branch |
| StatementGate.MissedWriteSlipsIn | db/database.py:2335-2343 | a statement that updates, sent by a task spawned inside another's transaction, is part of that transaction |
| AwgText.ParseSections | adapters/awg_config.py:646-676 | the pass over the lines computes the section list, or the first of the four errors |
| AwgGrammar.ParsesIff | adapters/awg_config.py:646-676 | for every list of lines: it parses exactly when only notes stand in front of the first section, all sections are known and no critical option is set twice in its section; the sections carry what their lines set last; otherwise the error is that of the first section at fault |
| AwgGrammar.ConfigIff | adapters/awg_config.py:646-676 | a text is a config exactly when its lines parse and one section is an interface |
| AwgText.BlockParsed | adapters/awg_config.py:837-863 | a printed peer block parses, behind any sections, to exactly one `[Peer]` section with its three options, keys ending in `=` included |
| AwgText.StartMarkIsExact | adapters/awg_config.py:865-880 | a start marker matches one key id only: 1 is never confused with 12 |
| AwgText.ParsedRStrip | adapters/awg_config.py:646-671 | trailing whitespace never changes what a config parses to |
| AwgText.RemoveManagedBlock | adapters/awg_config.py:868-890 | the scan with its two indices removes the first block of the key, or reports a missing end marker |
| AwgText.ManagedBlockLines | adapters/awg_config.py:892-904 | the scan returns the first block of the key with its markers |
| AwgMarkers.RemovalIs | adapters/awg_config.py:868-904 | in every text the block of a key runs from the first line that opens it to the first one behind it that closes it; it is what is found and what is removed, no opening line means nothing to remove, and a block that is never closed is refused |
| AwgMarkers.KeyIs | adapters/awg_config.py:382-396 | the public key of a block is that of its first line that gives one that is not empty |
| AwgMarkers.BlockIs | adapters/awg_config.py:837-863 | the lines written for a peer, word by word, and the text of the config with the block behind it |
| Lines.SplitsAt | adapters/awg_config.py:646-649 | a text is split into lines at each of the ten characters `splitlines` knows, at a carriage return and line feed together, and nowhere else |
| AwgPeers.RemoveUndoesAppend | adapters/awg_config.py:215-222 | removing a block right after appending it gives back the text stripped of trailing whitespace plus one line feed |
| AwgPeers.AppendedParses | adapters/awg_config.py:215-222 | the appended text parses to the old sections followed by exactly the new peer, or to the old error |
| AwgFind.AllowedIpsContains | adapters/awg_config.py:812-827 | true exactly when one comma-separated network covers the address |
| AwgCoverage.CoverageIs | adapters/awg_config.py:812-829 | an `AllowedIPs` line of any items with any blanks around them, joined by commas, covers an address exactly when an item is a network of the same version between whose first and last number the address lies; other and empty items change nothing |
| AwgCoverage.FoundIff | adapters/awg_config.py:678-700 | a section is found by a public key or an address exactly when it is a peer with this key or with such a line that covers the address |
| AwgCoverage.FoundByKeyOnly | adapters/awg_config.py:678-700 | a section without `AllowedIPs` is found by its public key only |
| IpSpelling.Net4Read | adapters/awg_config.py:1036-1037 | every spelling of an IPv4 network (an address alone, with a length, a netmask or a host mask) is read as the block of that address; read strictly, only when it is the first address of the block |
| IpSpelling.Net4Only | adapters/awg_config.py:1036-1037 | no other text is read as an IPv4 network |
| Ip6Spelling.Addr6Read | adapters/awg_config.py:1036-1040 | every spelling of an IPv6 address (eight groups, or a `::` for the zeros left out, an IPv4 tail for the last two) is read as its groups |
| Ip6Spelling.Addr6Only | adapters/awg_config.py:1036-1040 | no other text without a scope id is read as an IPv6 address |
| AwgFind.FindPeer | adapters/awg_config.py:678-693 | the options of the first peer with this public key or covering this address; none exactly when no peer matches |
| AwgFind.HostCovers | adapters/awg_config.py:812-827 | `ip/32`, as a managed peer is written, covers exactly the address itself for IPv4 and the whole /32 block for IPv6 |
| AwgFind.NeighbourIsCovered | adapters/awg_config.py:837-863 | the block of `2001:db8::1` covers `2001:db8::2` |
| IpAddress.HostHolds | adapters/awg_config.py:1036-1040 | the same of the parsed network and address, `::` and the IPv4 tail included |
| IpAddress.IpChars | adapters/validation.py:35-41 | an accepted address has hexadecimal digits, colons and dots only |
| AwgFind.RemovePeerSectionByIdentity | adapters/awg_config.py:747-775 | the nested loops keep the lines the specification keeps |
| AwgIdentity.OtherSectionsSurvive | adapters/awg_config.py:747-775 | on every config that parses, exactly the sections headed `[Peer]` with the key are dropped and all others keep their options and order; no peer with the key is left exactly when each was headed that way |
| AwgIdentity.TextKeepsOthers | adapters/awg_config.py:747-775 | the same on the rewritten text |
| AwgIdentity.OddHeaderStays | adapters/awg_config.py:747-775 | a config whose `[ Peer ]` section is left in place by removal |
| AwgLayout.AppendedIsLaid | adapters/awg_config.py:215-222 | appending a block adds one entry to the layout of hand-written lines and managed blocks |
| AwgRuns.AddRefines | adapters/awg_config.py:196-229 | one `add_peer` on the text is one step on the map: known key left alone, taken public key or address (for IPv6: taken /32 block) refused, else added |
| AwgRuns.RemoveRefines | adapters/awg_config.py:244-276 | one `remove_peer` of a present key deletes it from the map, and its public key is found nowhere in the config |
| AwgRuns.RunRefines | adapters/awg_config.py:168-284 | over every permitted run from a parseable text without bot markers the config text stands for the map |
| AwgRuns.WhatTheTextShows | adapters/awg_config.py:382-394 | such a text shows exactly the map: `find_managed_peer_public_key` and the block test read it, hand-written sections keep their options, public keys, addresses and their blocks are distinct, and no other section matches a managed peer's key or address |
| AwgStores.Adapter.AddPeer | adapters/awg_config.py:168-242 | one call changes file and interface as its flags and answers say, with `_rollback_add_peer` after a failure |
| AwgStores.Adapter.RemovePeer | adapters/awg_config.py:244-284 | the same for `remove_peer` and `_rollback_remove_peer` |
| AwgStores.AddSucceedsIff | adapters/awg_config.py:168-242 | `add_peer` returns exactly when arguments and config are in order and the peer is live or can be made so, or it is new to everybody and every step succeeds |
| AwgStores.RemoveSucceedsIff | adapters/awg_config.py:244-284 | `remove_peer` returns exactly when the text without the peer can be had and written and the runtime has let go of the key, with no section left for it |
| AwgStores.AddRollbackHalves | adapters/awg_config.py:168-242 | when `add_peer` raises, a restore that works leaves the config text and a cleanup that works leaves no new peer, whatever becomes of the other |
| AwgStores.RemoveRollbackHalves | adapters/awg_config.py:244-284 | when `remove_peer` raises, a restore that works leaves the config text, and the interface is as it was, without the key, or synced with the file after a removal that was reported to have worked |
| AwgStores.AddIsAtomic | adapters/awg_config.py:196-242 | whatever the commands answer: returned with the peer in both stores, or raised with both as before; the two exceptions are exact conditions |
| AwgStores.RemoveIsAtomic | adapters/awg_config.py:249-284 | whatever the commands answer: returned with the key in neither store, or raised with both as before; one exact exception |
| AwgStores.RepeatedAddCanDropPeer | adapters/awg_config.py:206-212 | an input on which a failed repeated add loses a live peer |
| AwgStores.OtherOwnerRunsAhead | adapters/awg_config.py:206-212 | an input on which a returning add for another public key leaves a live peer that the config has not |
| AwgStores.FailedRemoveCanDropPeer | adapters/awg_config.py:271-283 | an input on which a failed removal loses a live peer |
| AwgStores.StoresStayInStep | adapters/awg_config.py:168-284 | along every run of calls with any answers short of the exceptions, file and interface both stand for the map of the calls that returned |
| XrayDrift.StripXrayBotOwned | deploy/backend-config-sync.py:145-175 | the loops empty exactly the bot-owned region, or raise on an `inbounds` they cannot loop over |
| XrayFindings.StrippedIs | deploy/backend-config-sync.py:145-175 | the comparison leaves out the clients and short ids of the inbounds and the source addresses of the freedom outbounds, and nothing else |
| XrayDrift.KeyEntries | deploy/backend-config-sync.py:178-197 | entries keyed by tag, later ones replacing earlier ones |
| XrayDrift.Compare | deploy/backend-config-sync.py:201-237 | appends the missing, extra and differing places of two trees of any depth |
| XrayDrift.NoFindingsIffFits | deploy/backend-config-sync.py:201-237 | no finding exactly when the live tree has the skeleton's shape with placeholders standing for anything |
| XrayFindings.FindingIff | deploy/backend-config-sync.py:201-237 | a finding is reported exactly at a place where a key is on one side only or two values differ that cannot be looked into, on a path both values have |
| XrayFindings.NamesAre | deploy/backend-config-sync.py:178-198 | an entry goes by its tag, an outbound without one by its protocol, and any other by its position, which no other untagged entry shares |
| XrayFindings.ReportRaisesIff | deploy/backend-config-sync.py:145-198 | the report raises exactly when `inbounds` or `outbounds` on either side is true or a number other than zero |
| XrayDrift.CheckXray | deploy/backend-config-sync.py:240-304 | the findings of the top level and of both tag-matched lists |
| XrayInstall.ResolvePlaceholders | deploy/backend-config-sync.py:475-513 | the recursive walk resolves from environment, then live value, and lists a placeholder exactly when neither provides one |
| XrayInstall.ResolvedFits | deploy/backend-config-sync.py:475-513 | whatever is provided, the resolved tree fits the skeleton |
| XrayPlaceholders.EveryLeafWritten | deploy/backend-config-sync.py:475-560 | in an accepted install, at every leaf of the skeleton outside what the bot owns: `<REALITY_SERVER_NAME>` and `<XHTTP_PATH>` become `XRAY_SNI` and `XRAY_XHTTP_PATH` where those are set, any other placeholder the live value at the same path, of the inbound with the same tag, and everything else stays the skeleton's |
| XrayPlaceholders.RefusedAsOpenIff | deploy/backend-config-sync.py:475-560 | an install is refused for an open placeholder exactly when nobody provides a value at its path by position, or by tag |
| XrayPlaceholders.RefusedAsEmptyIff | deploy/backend-config-sync.py:534-541 | an install is refused for lack of clients exactly when no keyed live inbound has a list of them |
| XrayPlaceholders.OtherOrderIsRefused | deploy/backend-config-sync.py:475-560 | an install that is refused because the live inbounds stand in another order, although every placeholder has its value under its tag |
| XrayInstall.PutBackLoop | deploy/backend-config-sync.py:563-571 | the loop puts clients and short ids back under their tags, or raises |
| XrayPlaceholders.PutsBackIff | deploy/backend-config-sync.py:563-571 | putting clients and short ids back raises exactly where `settings` or `streamSettings` are of the wrong kind; otherwise the lists due are there, in new `settings` if there were none |
| XrayPlaceholders.PutTagIs | deploy/backend-config-sync.py:178-187 | the put-back looks an inbound up under the key it is indexed by, an untagged one under the empty tag |
| XrayInstall.PutSendLoop | deploy/backend-config-sync.py:572-580 | the loop hands the source addresses to the freedom outbounds in order |
| XrayMerge.InboundFits | deploy/backend-config-sync.py:145-175 | a merged inbound fits the skeleton's after stripping exactly when the skeleton lists what was put back |
| XrayMerge.InstallThenCheck | deploy/backend-config-sync.py:516-594 | the report on what `install-xray` writes is empty exactly when the skeleton lists the bot-owned regions of the live tags |
| XrayMerge.ClientsConserved | deploy/backend-config-sync.py:563-594 | passing the one total count means every extracted client list is in the merge under its own tag, in order, with none added |
| XrayMerge.LiveClientsConserved | deploy/backend-config-sync.py:456-472 | an accepted install keeps the clients of a live inbound, under its tag and in order, exactly when the last live inbound with the same key has the same list |
| XrayLosses.DuplicateTagLosesClients | deploy/backend-config-sync.py:456-472 | two live inbounds with one tag: the install is accepted and the first one's clients are gone |
| XrayMerge.ShortIdsConserved | deploy/backend-config-sync.py:563-571 | every merged inbound whose skeleton has REALITY settings carries the short ids that were live under its tag |
| XrayMerge.LiveShortIdsConserved | deploy/backend-config-sync.py:563-571 | an accepted install keeps the short ids of a live inbound under its tag exactly when the last live inbound with its key has the same ones and the skeleton's inbound with that tag takes them |
| XrayLosses.NoRealityLosesShortIds | deploy/backend-config-sync.py:563-571 | an accepted install that drops live short ids, because the skeleton has no REALITY settings for the tag |
| XrayMerge.SendsConserved | deploy/backend-config-sync.py:572-580 | in an accepted install the k-th freedom outbound is the skeleton's and has the source address of the k-th live one, as far as there is one |
| XrayMerge.LiveSendsConserved | deploy/backend-config-sync.py:572-580 | an accepted install keeps a live source address under its own tag exactly when the skeleton has that tag in the same place, or in a place given the same address |
| XrayLosses.ReorderingMovesAddress | deploy/backend-config-sync.py:572-580 | an accepted install that moves an address to another tag, because the skeleton orders its freedom outbounds differently |
| XrayEdits.TargetInbound | adapters/xray_config.py:455-493 | the first inbound with the tag if it is of the right kind, or the only VLESS/REALITY inbound |
| XrayEdits.FindClient | adapters/xray_config.py:508-518 | the first client with the UUID or the email, none exactly when there is none |
| XrayOutcomes.TaggedTarget | adapters/xray_config.py:455-493 | with a tag the target is the first inbound that has it, if it is VLESS with settings (and REALITY where required); otherwise the call is refused as not found or of the wrong kind |
| XrayOutcomes.OnlyTargetFound | adapters/xray_config.py:455-493 | without a tag the target is the only VLESS inbound with REALITY; none and several are told apart |
| XrayOutcomes.AddClientOutcome | adapters/xray_config.py:193-242 | an accepted `add_client` leaves the old client list followed by one object with this UUID, this label, the flow if there is one, and nothing else; it is refused exactly when the UUID or the label is taken or a wanted short id has no place |
| XrayOutcomes.RemoveInboundOutcome | adapters/xray_config.py:244-288 | `remove_client` takes out exactly the clients with the UUID, or with the label when no UUID is given, and the short id if asked to; it writes nothing exactly when there is nothing to take out |
| XrayOutcomes.RenameInboundOutcome | adapters/xray_config.py:290-359 | `rename_clients` gives each client the label wanted for its UUID and changes nothing else |
| XrayOutcomes.EnsureInboundOutcome | adapters/xray_config.py:361-386 | `ensure_short_id` puts the short id at the end of the list unless it is there |
| XrayOutcomes.EditedOutcome | adapters/xray_config.py:193-386 | an edit changes the target inbound and the source addresses of the freedom outbounds, and nothing else in the config |
| XrayOutcomes.NothingAskedIff | adapters/xray_config.py:290-386 | without a list of inbounds a call succeeds exactly when it asks for nothing: no new label, no short id, or a short id where REALITY is not required |
| XrayEdits.RenameLoop | adapters/xray_config.py:324-340 | renames in place by UUID; the count is zero exactly when nothing changed |
| XrayEdits.WarpLoop | adapters/xray_config.py:96-125 | rebinds every freedom outbound; the flag is set exactly when something changed |
| XrayEdits.RenameKeepsIdentity | adapters/xray_config.py:324-340 | a rename changes labels only, gives the wanted label, and repeating it changes nothing |
| XrayEdits.KeptIsExact | adapters/xray_config.py:262-272 | removal keeps exactly the clients that do not match, each as often as before and in the same order |
| XrayEdits.ShortIdRoundTrip | adapters/xray_config.py:527-543 | an added short id is present, a removed one absent, and removing a new one restores the inbound |
| XrayEdits.WarpBinds | adapters/xray_config.py:96-125 | every freedom outbound is bound to the address or to none, nothing else changes, and re-asserting changes nothing |
| XrayEdits.FootprintIsExcluded | adapters/xray_config.py:495-543 | an edit leaves the stripped config unchanged exactly when the lists it writes to exist |
| XrayEdits.WritesNeverDrift | adapters/xray_config.py:193-386 | no sequence of edits on a config with the lists present changes the drift report |
| XrayFootprint.ReportNoticesIff | deploy/backend-config-sync.py:240-304 | a single edit changes the drift report exactly when it creates a list inside an object the skeleton spells out for the inbound the report looks at |
| XrayFootprint.CreatedListShows | adapters/xray_config.py:495-506 | adding the first client to an inbound without a list changes the stripped config and the report |
| XrayEdits.RemoveUndoesAdd | adapters/xray_config.py:193-288 | adding a client and removing its UUID restores the whole config exactly when the inbound had a client list |
| XrayApply.Adapter.InstallCandidate | adapters/xray_config.py:597-698 | replaces config.json after the test, keeps it exactly when the service comes up, and restores it unless a service command raises |
| XrayApply.Adapter.InstallCandidateApi | adapters/xray_config.py:755-844 | the replace, the rebuild of the running inbound, and after any failure of it the restore and a second rebuild |
| XrayApply.Adapter.Perform | adapters/xray_config.py:193-386 | one edit with everything it leaves: result, config.json and running inbound |
| XrayApply.PerformedOkIff | adapters/xray_config.py:193-386 | a call succeeds exactly when there is nothing to do, or the edit is accepted and every step of installing it succeeds |
| XrayApply.ByApiIff | adapters/xray_config.py:193-288 | an edit that writes goes through the API exactly when it adds or removes a client without putting in or taking out a short id |
| XrayApply.PerformedLaw | adapters/xray_config.py:597-698 | an edit that returns leaves config.json edited, or untouched when there was nothing to write; one that raises leaves it as it was exactly when it failed before the replace or its restore was reached and worked |
| XrayApply.RaisingReloadKeepsCandidate | adapters/xray_config.py:664-678 | any edit whose reload raises fails with the candidate still in config.json |
| XrayApply.ApiFollowsDisk | adapters/xray_config.py:755-844 | through the API the running inbound equals the one on disk on return, and both are the old ones after a failure whose rollback `adi` succeeded |
| XrayApply.PerformedKeepsStripped | adapters/xray_config.py:193-386 | however an edit ends, the stripped config stays the same where the lists were present |
| MtProxyStore.NormalizeSecrets | adapters/mtproxy.py:493-502 | the loop over the sorted secrets keeps the first of each fingerprint, or refuses an invalid secret |
| MtProxyStore.SecretIsHexIff | adapters/mtproxy.py:524-530 | 32 hexadecimal digits are accepted, and besides them exactly the accepted texts with a blank, a sign, an underscore or an `x` |
| MtProxyStore.SignedSecretAccepted | adapters/mtproxy.py:524-530 | a sign and 31 digits are accepted |
| MtProxyStore.NormalizedIsNormal | adapters/mtproxy.py:493-502 | the normal form strictly increases in fingerprint and is made of the given secrets |
| MtProxyChoice.KeptIffChosen | adapters/mtproxy.py:493-502 | a secret is kept exactly when no other one of its fingerprint is less and none before it in the list as given is equal; so each fingerprint is kept once |
| MtProxyStore.NormalIsFixed | adapters/mtproxy.py:493-502 | normalising twice is normalising once |
| MtProxyStore.OrderDoesNotMatter | adapters/mtproxy.py:493-511 | when each fingerprint occurs once the order of the arguments does not matter |
| MtProxyStore.StoredReadsBack | adapters/mtproxy.py:369-421 | a stored document reads back as its secrets and never has an empty runtime list; runtime and stored users agree exactly when none is called like the placeholder |
| MtProxyStore.OldDocumentReads | adapters/mtproxy.py:369-421 | a document without a runtime list reads the users from its secrets, and a missing generation as 0 |
| MtProxyStore.EmptyFingerprintIsLost | adapters/mtproxy.py:369-421 | a secret with an empty fingerprint is stored and not read back |
| MtProxyStore.PlaceholderNameIsHidden | adapters/mtproxy.py:369-421 | a secret called like the placeholder is stored and missing from the runtime view |
| MtProxy.Adapter.Apply | adapters/mtproxy.py:241-290 | one call decides, writes both files, and restores both after a failure |
| MtProxy.AppliedIff | adapters/mtproxy.py:241-290 | a change counts as applied exactly when there is one to write and backup, both files, permissions and restart succeed, the service is active and its port listens |
| MtProxy.RefusedIff | adapters/mtproxy.py:241-251 | a call is refused before it touches anything exactly when a file is missing or the store unreadable, a secret asked for or stored is invalid, the generation is no number, or a needed placeholder cannot be looked up |
| MtProxy.ApplyLaw | adapters/mtproxy.py:241-290 | a changing call raises the generation by one and stores the normal form; every other call leaves both files as they were |
| MtProxy.ReapplyIsNoOp | adapters/mtproxy.py:241-251 | applying the same set again, in any order, does nothing exactly when no fingerprint is empty |
| MtProxy.EmptyFingerprintRewrites | adapters/mtproxy.py:241-251 | an input on which applying the same secret again writes the store again |
| MtProxy.RunCounts | adapters/mtproxy.py:241-290 | over every run the generation is the start value plus the successful changing calls, and the runtime list never becomes empty |
| RateLimit.RateLimiter.Check | bot/rate_limit.py:27-47 | one check answers and updates the table as specified and keeps it within its limit |
| RateLimit.RateLimiter.Trim | bot/rate_limit.py:49-51 | drops the least recently used keys beyond the limit |
| RateLimit.WindowLaw | bot/rate_limit.py:27-47 | a window accepts at most the burst, and accepted calls of older windows lie further back |
| RateLimit.WindowGrants | bot/rate_limit.py:27-47 | of the calls within the cooldown of the one that opens a window exactly the first `burst` are accepted |
| RateLimit.RetryIsEnoughIff | bot/rate_limit.py:36-44 | coming back after the seconds a refusal names is enough exactly when the rest of the window was a whole number of seconds or less than one; one second more always is |
| RateLimit.RetryCanBeTooSoon | bot/rate_limit.py:36-44 | a refusal that names two seconds, and a call after them that is refused |
| RateLimit.AtMostTwiceTheBurst | bot/rate_limit.py:27-47 | no interval of one cooldown holds more than twice the burst of accepted calls |
| RateLimit.RefusalsLeaveNoTrace | bot/rate_limit.py:36-44 | without its refusals a run ends in the same window and accepts the same calls |
| RateLimit.BoundedAnswersAlike | bot/rate_limit.py:27-51 | the bounded table answers like an unbounded one when fewer than `max_entries` other keys are checked between two checks of a key |
| RateLimit.TableIsPerKey | bot/rate_limit.py:27-47 | a key's window depends on its own checks only |
| IpAllocation.IpAllocator.Create | adapters/ip_allocator.py:17-36 | succeeds exactly when the server is an inner host of the pool |
| IpAllocation.IpAllocator.NextFreeIp | adapters/ip_allocator.py:42-84 | about the argument lists: the least inner pool host that is not the server, no given value cut at its `/` and stripped, and in no given AllowedIPs network; fails exactly when none exists or a value is no address or network |
| IpAllocation.OccupiedIs | adapters/ip_allocator.py:42-56 | a number is occupied exactly when some value, cut at its first `/` and stripped, is its address |
| IpAllocation.PeerNetsIs | adapters/ip_allocator.py:58-75 | a number is covered exactly when it lies in one of the AllowedIPs networks |
| IpAllocation.DiscardingIsSafe | adapters/ip_allocator.py:58-84 | dropping networks that do not overlap the pool never changes whether a pool address is taken (CIDR blocks nest, section 3.1 of RFC 4632) |
| Ipv4.AddrCanonical | config/validators.py:120-126 | only one spelling of an address is accepted, and printing gives it back |
| Ipv4.NetRoundTrip | config/validators.py:129-166 | a printed network, `/32` shorthand included, parses to itself |
| Ipv4.BlockIsRange | adapters/ip_allocator.py:58-84 | a network is the range from its base to its broadcast address |
| IpLists.ParseIpv4Networks | config/validators.py:129-152 | the loop collects the valid items without duplicates, or names the first bad one |
| IpLists.ListIff | config/validators.py:129-152 | a list written by hand is accepted exactly when it has no control character and every item is empty, an address or a network without host bits; the networks are those of the items, each once, and the error names the first other item |
| IpLists.OrderIsKept | config/validators.py:129-152 | what the first items give stands in front of what the whole list gives |
| IpLists.FormatThenParse | config/validators.py:129-166 | parsing what was formatted gives back every duplicate-free list of networks |
| IpLists.NormalForm | config/validators.py:129-166 | formatting after parsing is an idempotent normal form |
| IpAsn.LoadTable | adapters/ip_asn.py:49-71 | the loop keeps the rows that parse and sorts them by start |
| IpAsn.SaysIff | adapters/ip_asn.py:49-71 | a line is read as a range exactly when two addresses in order and a number stand in its first three columns |
| Text.IntRead | adapters/ip_asn.py:60-64 | a printed number with a sign or none and blanks around it is read back by `int` |
| IpAsn.LookupIff | adapters/ip_asn.py:105-127 | for lines with disjoint ranges the answer is the non-zero number on the line whose range, ends included, holds the address |
| IpAsn.BisectRight | adapters/ip_asn.py:105-127 | the first index whose start lies beyond the address |
| IpAsn.SearchIsScan | adapters/ip_asn.py:105-127 | for disjoint ranges in any file order the search answers like a linear scan |
| IpAsn.MalformedIgnored | adapters/ip_asn.py:49-71 | a line that does not parse changes nothing, wherever it stands |
| IpAsn.Lookup.LookupAsn | adapters/ip_asn.py:74-127 | the answer is that of the file loaded last if its signature is still the current one's, and else of the current file, by linear scan if the ranges are disjoint |
| IpAsn.AnswersAreCurrent | adapters/ip_asn.py:74-102 | over every run of lookups each is answered by the file as it is then, exactly when from one lookup to the next new lines come with a new signature |
| IpAsn.SameSignatureIsStale | adapters/ip_asn.py:74-102 | a run in which the old file answers after the lines changed |
| IpAsn.Lookup.NormalizeIp | adapters/ip_asn.py:130-145 | the AS number of the file that answers, or else the /24 |
| IpAsn.NormalizedIsFixed | adapters/ip_asn.py:130-145 | normalising a normalised address changes nothing |
| IpAsn.UnknownNeighboursMeet | adapters/ip_asn.py:130-145 | unknown addresses are counted together exactly when they share a /24 |
| IpAsn.CountedTogetherIff | adapters/ip_asn.py:130-145 | two addresses are counted together exactly when one ASN announces both, or the table knows neither and they share a /24 |
| TelegramHtml.ClosingTags | bot/messages.py:455-467 | the scan with its stack and the reversed list of closing tags |
| TelegramHtml.ClosesLatest | bot/messages.py:455-467 | in any text a closing tag closes the latest open tag of its name and no other, and does nothing without one |
| TelegramHtml.SplitAt | bot/messages.py:413-438 | a nested text splits at every point no tag runs across |
| TelegramHtml.ClosingCloses | bot/messages.py:455-467 | a nested beginning plus the generated closing tags is well nested |
| TelegramHtml.CapTelegramHtml | bot/messages.py:413-438 | the reassigned cut and snippet compute the specified text |
| TelegramHtml.CutIsNested | bot/messages.py:413-452 | the kept part is a prefix with no half tag and, if the input's entities are whole, no half entity; the result is well nested |
| TelegramHtml.WhatIsKept | bot/messages.py:413-452 | a long message is kept up to the last line feed of the second half of the room, or its end, but for blanks and what the cut left in half; only if that and the closing tags do not fit, as much of it as fits beside them |
| TelegramHtml.NoRoom | bot/messages.py:416-418 | a limit with no room for text gives the end of the marker, or all of it for the limit 0 |
| TelegramHtml.CappedIsNested | bot/messages.py:413-438 | for every limit a well nested message comes out well nested |
| TelegramHtml.FitsTheLimit | bot/messages.py:413-438 | the result is within the limit as long as the second cut drops no closing tag |
| TelegramHtml.CanExceedTheLimit | bot/messages.py:430-438 | a message that comes out four characters longer than its limit |

## Left out

- A cursor opened by `execute_fetchall` is fetched from at once in the source; in the model the two steps may lie apart.
- Task cancellation, failing COMMIT or ROLLBACK, DDL, `executescript` and the raw-connection migrations of `db/database.py`: the handlers catch `Exception` only, and the raw paths bypass the lock.
- DML inside a CTE body; and what Python's sqlite3 module does on its own beyond opening a transaction in front of INSERT, UPDATE, DELETE and REPLACE.
- U+FEFF: SQLite reads it as a blank, Python does not, so a byte-order mark inside a WITH statement lies outside the grammar.
- The fairness of the asyncio lock: any waiter may be granted it, so every order is covered and starvation is not excluded.
- The privileged-helper modes of the adapters, file permissions, fsync, temporary files, flock and symlink checks: a file is replaced in one step and the lock is held.
- IPv6 addresses with a scope id (`fe80::1%eth0`) are no addresses here; the allocator takes its IPv6 recogniser as a parameter, and `normalize_ip` passes IPv6 through as the source does.
- Which of several errors a call raises, and message texts, except where a result type names them.
- Order of findings in the drift report, order of keys in JSON objects, NaN, and duplicate keys in a JSON text: an object is a map and a report a set.
- Shown: the text of a tag that is a fraction, a list or an object is one fixed text, because such tags do not occur in an Xray config.
- That `json.dumps` and `json.loads` are inverse is built into the model of files as JSON values.
- Numbers given as text with non-ASCII digits (`int()` accepts them), and Unicode case mapping beyond the characters that map to ASCII letters.
- Marker lines in `_remove_peer_section_by_identity`: a removed section runs to the next header and can take the next block's start marker, so only options of other sections are claimed.
- StoresStayInStep: does not cover the runs named under "What the code does not meet", because the property fails there.
- The provider of the WARP address is modelled by its answer: absent, failing, or an address.
- The checks of argument characters in the Xray adapter (email labels, tags, service names): they raise before anything is read.
- systemd's effect on the running inbound after a reload or restart is arbitrary; only the API path claims the running inbound. What happens after a restore (the test of the restored file, a second restart) decides only which error is raised.
- The MTProxy helper mode, backup retention and the init baseline; a restore either restores both files or fails.
- Clock readings of the limiter are real numbers, so floating-point rounding of the remaining time is not modelled.
- Telegram handlers, formatters, i18n, settings, HTTP, service wiring, repositories, migrations and the Hysteria2 key store: plumbing, or properties easier than those above.

# CryptMail in Dafny

A model of the parts of the CryptMail mail client whose correctness reaches
across functions, with proofs. CryptMail is a phone app in TypeScript over a
Rust core; everything below keeps the branches, edge cases, error conditions
and constants of that code. `dafny verify dfyconfig.toml` checks the project.

## What is modelled

**The quantum key bank** (`KeyBank`, `KeyMaterial`, `KeyManager`, `Qkd`,
`QkdMail`). A phone holds a bank of 100 one-use keys. The Key
Manager is a class whose methods are proved against operations on a bank as a
value; sealing, opening, exporting and importing are methods proved the same
way.

**Any number of phones** (`KeyFleet`, `KeyFleetSafety`, `KeyFleetRuns`,
`KeyFleetRules`, `KeyFleetLimits`). A state machine over all steps that move
keys: issuing, reading, regenerating, linking, building by BB84, transferring,
resuming. `Possible` is what the code makes sure of, `Careful` what it leaves
to its users (`core/src/qkd.rs:13-15`, `core/src/lib.rs:187-188`): a file is
imported once, a bank handed over is not exported again, a transfer is taken
back only if it is never imported, and the two ends of an exchange send under
different SAE ids. The last is two rules, each about what one phone has at
hand: the judge's SAE id is not the one the reply names, and the accepting
phone still has the SAE id it named in that reply. The main theorem is that no AES
key is derived twice, and the two rules are exact: whatever bank and whatever
measurement a phone holds, the step is safe in every fleet reached with care
if and only if its rule holds. For each other rule there is a run that breaks
only it and reuses a key, for every bank with a key left.

**Transfers** (`Transfer`, `TransferFleet`). Exports and imports of whole
mailboxes on any number of phones, refused or not, refine the state machine
above, so at most one phone at a time can issue a key under an SAE id.

**Two linked ends** (`LinkedPair`). Messages delayed, reordered or lost, and
either end opening any of them, its own copies too: a message opens at an end
exactly if none under the same key was opened there before.

**BB84 over email** (`Bits`, `Bb84`, `Bb84Material`, `Exchange`). Preparation, measurement,
the error check, sifting and amplification as loops proved against
specification functions, the three legs on one phone, and what both ends hold
afterwards. The comment over `accept` says the measuring end repeats the error
check; the code compares nothing itself and tests only the verdict's own rate
and count, and the model follows the code (`AcceptDecides`).

**Background passes** (`Background`, `BackgroundInvariant`,
`BackgroundSafety`, `BackgroundProgress`). The promises of one module, with JavaScript's queue: code
between two awaits is one piece, waiters wake in the order they asked, nothing
outside calls in until the queue is empty, and services may settle at any
time. At most one graph without an app is ever at work, no circle of waiters
can form, and once an app is attached and idle has come back there is none.
Nor is anything held up without reason: what is called for starts unless
something really at work is in its way.

**Google sign-in** (`GoogleAuth`, `GoogleTokens`). One account in front, tasks one at a time,
calls at any point, and Play services free to ignore which account it was
asked for. Every token handed out belongs to its address, except that the
check is skipped for an address that is blank once trimmed; `OwnTokensExactly`
says so in both directions. After a sign-out nothing minted before it is
handed out again, and where Play services answers as asked callers are served.

**IMAP** (`ImapIds`, `ImapMoves`, `ImapTracking`, `ImapActing`, `Paging`, `UidSets`,
`ByteQueue`, `Framing`, `ImapReader`). A server that other clients change
between any two commands, ids that follow moves, paging, and the incremental
reader over a growable buffer.

**Printers and their readers** (`Base64`, `Utf8`, `SmtpData`, `SmtpReplies`,
`Mbox`, `Rfc822`, `Multipart` and the `Mime` modules). The mbox export is read
back exactly except where a line holds U+2028 or U+2029 before `From `: the
quoting pattern takes those for line starts and no mbox reader does
(`MboxRoundTrip`). A message whose header is `Bcc` fields only is submitted
with an empty line in their place (`ServerReceives`).

**Small machines** (`NewMail`, `AppLock`, `Links` over `Segments`, `Rules`).

`Common`, `Strings`, `LineText` and `Decimal` hold what the rest shares.

## Findings

Where the code does not do what it or its documentation says:

- A verdict accepted late reuses a key although the two ends' SAE ids differ
  throughout (`KeyFleetLimits.LateVerdictReusesAKey`): a phone measures, the
  other end judges and then links its new bank to that phone, the phone sends
  with it, and only then accepts the verdict. That the ids differ
  (`core/src/qkd.rs:13-15`) is not enough; `KeyFleetRules.SafeToAcceptExactly`
  says what is.
- The comment over `accept` (`core/src/bb84.rs:232-234`) says the measuring
  end repeats the error check. It compares nothing itself and tests only the
  verdict's own rate and count (`Bb84.AcceptDecides`).
- A transfer whose address has no at sign is refused after the identity was
  replaced (`Transfer.RefusedTooLate`, `RefusedTooLateHappens`).
- A key is deleted before its message is decrypted, so one that was changed,
  or holds no text, costs its key although it is refused
  (`QkdMail.OpeningCosts`).
- An end that opens its own copy cannot read what the other sealed with the
  same key (`LinkedPair.OwnCopyCostsTheOther`).
- The check that a Google account is the one asked for is skipped for an
  address that is blank once trimmed (`GoogleAuth.OwnTokensExactly`).
- mbox quoting takes U+2028 and U+2029 for line starts and no mbox reader
  does, so a message can come back changed (`Mbox.MboxRoundTrip`).
- A message whose header is `Bcc` fields only is submitted with an empty line
  in their place (`SmtpData.ServerReceives`).
- `utf8ByteLength` and `utf8ToBytes` do not always agree: a high surrogate
  before a unit far below the low ones counts four bytes and is written in
  fewer (`Utf8.ByteLengthExact`, `LengthsDisagree`).

## Model

| member | source | states |
|---|---|---|
| `KeyBank.IssueFirstMeaning` | core/src/km.rs:253-275 | issuing takes as many ids as asked out of the fresh ones, each once, and loses or alters no key |
| `KeyBank.IssueFirstAt` | core/src/km.rs:260-275 | position by position, a key is issued exactly if it was fresh and fewer than the number asked stand fresh before it |
| `KeyBank.DecMeaning` | core/src/km.rs:280-296 | reading succeeds exactly if every key named is held, returns them in the order asked, and deletes those and no others |
| `KeyBank.RetainMeaning` | core/src/km.rs:280-296 | deleting drops exactly the named keys |
| `KeyManagers.KeyManager.EncKeys` | core/src/km.rs:253-275 | the loop hands out and marks the first fresh keys, or refuses a bank handed over or too empty and changes nothing |
| `KeyManagers.KeyManager.OwnFresh` | core/src/km.rs:442-444 | the positions of the first fresh keys, in bank order |
| `KeyManagers.KeyManager.DecKeys` | core/src/km.rs:280-296 | every key is found before any is deleted; a missing one leaves the bank as it was |
| `KeyManagers.KeyManager.ExportLink` | core/src/km.rs:299-329 | this end becomes master of a link whose other end gets every key fresh under a new SAE id; a short code changes nothing |
| `KeyManagers.KeyManager.ImportLink` | core/src/km.rs:331-353 | the bank is replaced by the link's, ready to send, or refused unchanged |
| `KeyManagers.KeyManager.AdoptBank` | core/src/km.rs:380-386 | a well-sized bank is adopted ready to send, any other refused unchanged |
| `KeyManagers.KeyManager.HandOver` | core/src/km.rs:390-392 | the bank stops issuing and is otherwise kept |
| `KeyManagers.KeyManager.Resume` | core/src/km.rs:405-419 | the bank issues again |
| `KeyManagers.KeyManager.Regenerate` | core/src/km.rs:245-248 | a new unlinked bank under the same SAE id |
| `KeyManagers.KeyManager.FillFrom` | core/src/km.rs:171-200 | material of the right length becomes the bank, any other is refused unchanged |
| `KeyMaterial.IdFromInjective` | core/src/km.rs:457-467 | two ids are equal exactly if their slots and the first 27 of the 28 seed digits are |
| `KeyMaterial.BankKeysMeaning` | core/src/km.rs:171-192 | 100 fresh keys of distinct ids whose bytes laid end to end are the material |
| `KeyFleet.InitialInv` | core/src/km.rs:139-158 | phones as installed satisfy the invariant |
| `KeyFleetSafety.StepPreserves` | core/src/km.rs:245-417 | every possible and careful step of any phone keeps: a right to send is in one place, and unused |
| `KeyFleetSafety.IssuePreserves` | core/src/km.rs:253-275 | issuing keeps the fleet's invariant |
| `KeyFleetSafety.ExportLinkPreserves` | core/src/km.rs:299-329 | so does starting a link |
| `KeyFleetSafety.ImportPreserves` | core/src/transfer.rs:147-158 | so does opening a file that no one opened before |
| `KeyFleetSafety.ExportTransferPreserves` | core/src/transfer.rs:80-115 | so does handing a bank over |
| `KeyFleetSafety.ResumePreserves` | core/src/lib.rs:187-194 | so does taking a bank back whose file was not opened |
| `KeyFleetSafety.JudgePreserves` | core/src/lib.rs:254-271 | so does judging a reply |
| `KeyFleetSafety.AcceptSamePreserves` | core/src/lib.rs:276-291 | so does accepting a verdict under the SAE id of the measurement |
| `KeyFleetSafety.RunPreserves` | core/src/km.rs:245-417 | the invariant holds after every careful run |
| `KeyFleetSafety.NoAesKeyTwice` | core/src/qkd.rs:8-15 | over every such run of any number of phones no AES key is derived twice |
| `KeyFleetRules.SafeToAcceptExactly` | core/src/lib.rs:276-291 | whatever bank and measurement a phone holds: accepting a verdict of its own material never leads to a key used twice, in any fleet reached with care, exactly if its SAE id is still the one it measured with |
| `KeyFleetRules.SafeToJudgeExactly` | core/src/lib.rs:254-271 | whatever bank a phone holds: so for judging, exactly if the reply names another SAE id than its own |
| `KeyFleetRules.ImportingALinkTwiceReuses` | core/src/km.rs:331-353 | for every bank with a key, a run careful but for a second import of one link issues a key twice |
| `KeyFleetRules.ImportingATransferTwiceReuses` | core/src/transfer.rs:118-160 | so for every bank with a key left and a second import of one transfer |
| `KeyFleetRules.ResumingTooLateReuses` | core/src/lib.rs:187-194 | so for taking a bank back whose file was imported |
| `KeyFleetRules.ExportingTwiceReuses` | core/src/transfer.rs:80-115 | so for handing over a bank handed over before |
| `KeyFleetLimits.LateVerdictReusesAKey` | core/src/lib.rs:276-291 | from phones as installed, a run that keeps every documented rule, the two ends' SAE ids different at every step, and uses a key twice |
| `Qkd.ParseArmored` | core/src/qkd.rs:133-153 | the line loop computes the parse |
| `Qkd.WriteHeader` | core/src/qkd.rs:156-162 | the header pushed line by line is the specified one |
| `Qkd.WriteArmor` | core/src/qkd.rs:164-173 | the block pushed chunk by chunk is the specified one |
| `Qkd.ParseOfArmor` | core/src/qkd.rs:133-173 | a block in any text around it reads back level, cipher, SAE id, key ids and payload exactly |
| `QkdMail.SealMessage` | core/src/qkd.rs:79-95 | sealing issues one key and seals with it, or changes nothing |
| `QkdMail.OpenMessage` | core/src/qkd.rs:99-123 | opening is the specified one on bank and text |
| `QkdMail.OpenAfterSeal` | core/src/qkd.rs:79-123 | every plaintext comes back, from any text around the block; that key is gone and no other |
| `QkdMail.OpenAfterOldSeal` | core/src/qkd.rs:97-123 | so for mail sealed under the older derivation, from the key alone |
| `QkdMail.SealDecides` | core/src/qkd.rs:79-95 | sealing succeeds exactly at Level 2 with a bank that may issue and has a fresh key; the error says which is not so |
| `QkdMail.OpeningCosts` | core/src/qkd.rs:97-123 | a text that is no Level 2 message of one of the two derivations, or whose key is missing, leaves the bank unchanged and the error says why; any other costs exactly the key it names, even if it is then refused as changed or as no text |
| `QkdMail.SecondOpenFails` | core/src/qkd.rs:97-113 | a second opening is refused and costs nothing more |
| `QkdMail.CipherLineIsAuthenticated` | core/src/qkd.rs:103-119 | a message sealed for its sender does not open under the old derivation |
| `LinkedPair.UnopenedOpens` | core/src/qkd.rs:79-123 | where no message under its key was opened, a message opens to its plaintext and costs that key only |
| `LinkedPair.RunPreserves` | core/src/km.rs:253-296 | every run of sends, openings of any message at either end, and refusals keeps: a key is missing at an end exactly if a message was opened there with it |
| `LinkedPair.SendIsSeal` | core/src/qkd.rs:79-95 | the pair's send is what sealing does |
| `LinkedPair.OpensExactlyIf` | core/src/qkd.rs:79-123 | under any interleaving, delay or reordering, a message opens at an end to its plaintext exactly if none under the same key was opened there before; refused, it costs nothing |
| `LinkedPair.EveryMessageOpensOnce` | core/src/qkd.rs:8-15 | if no end opens its own copies, every message opens once at the other end, and then never again |
| `LinkedPair.OwnCopyCostsTheOther` | core/src/km.rs:280-296 | from any pair just linked, a run in which both ends seal with one key and one opens its own copy, and then cannot open the other's |
| `LinkedPair.LinkingJustLinks` | core/src/km.rs:299-353 | a link exported and imported with its code leaves two ends as the theorems start from: one set of keys, master and slave, each the other's peer; with another code nothing is taken |
| `Transfer.Device.ExportTransfer` | core/src/transfer.rs:80-115 | the bank travels as it was and is then handed over; a refusal changes nothing |
| `Transfer.Device.ImportTransfer` | core/src/transfer.rs:121-160 | identity, then bank, replaced after every check |
| `Transfer.Moved` | core/src/transfer.rs:80-160 | the new phone issues what the old one would have, the old one issues nothing and opens what it could |
| `Transfer.RefusedImportChangesNothing` | core/src/transfer.rs:118-160 | an import refused leaves the phone as it was, for every file an export wrote |
| `Transfer.RefusedTooLate` | core/src/transfer.rs:151-158 | exactly which other files are refused after the identity was replaced |
| `Transfer.RefusedTooLateHappens` | core/src/transfer.rs:151-158 | there is such a file |
| `Transfer.OnlyTheCodeOpens` | core/src/transfer.rs:126-134 | no other code opens a file or changes anything |
| `TransferFleet.StepRefines` | core/src/transfer.rs:80-160 | every export or import, refused or not and of whatever mailbox, every send and every taking back is a careful step among the mailbox's banks, or none |
| `TransferFleet.OnePhoneSends` | core/src/transfer.rs:76-160 | over every sequence of them on any number of phones, a key can be issued under an SAE id on one phone at most, and no AES key is derived twice |
| `Bits.PackBits` | core/src/bb84.rs:366-374 | the packing loop computes the packed octets |
| `Bits.PackRoundTrip` | core/src/bb84.rs:366-381 | unpacking what was packed gives the bits back at every length, whatever octets follow |
| `Bb84.MeasureStates` | core/src/bb84.rs:159-185 | the measuring loops compute the specified measurement |
| `Bb84.DrawnExactly` | core/src/bb84.rs:168-174 | the sample is exactly the positions whose draw divides by ten, each once, ascending |
| `Bb84.Compare` | core/src/bb84.rs:203-214 | the loop counts exactly the sampled entries where bases agreed, and those that disagree |
| `Bb84.JudgeReply` | core/src/bb84.rs:189-228 | the judging loops compute the specified verdict and material, or the specified refusal |
| `Bb84.AcceptVerdict` | core/src/bb84.rs:235-246 | so for accepting |
| `Bb84.SiftBits` | core/src/bb84.rs:316-318 | the kept bits in order |
| `Bb84.MaskOf` | core/src/bb84.rs:356-364 | the mask marks exactly the positions named and in range |
| `Bb84.AmplifyKey` | core/src/bb84.rs:323-348 | each octet of the material comes from its own 4096-byte chunk |
| `Bb84Material.AcceptedChunk` | core/src/bb84.rs:323-348 | each 4096-byte chunk of an accepted exchange's material is the derivation's answer for that chunk's number, on the state count, the agreed bases as sent and the packed kept bits |
| `Bb84Material.JudgedChunk` | core/src/bb84.rs:323-348 | so at the judging end, on its own bits |
| `Bb84Material.ChunksDiffer` | core/src/bb84.rs:335-346 | no chunk repeats another unless the derivation itself gives two numbers one answer |
| `Bb84Material.MaterialTellsExchanges` | core/src/bb84.rs:323-348 | two exchanges come to one material only with the same count, agreed bases and packed kept bits, unless the derivation gives two inputs one answer |
| `Bb84.JudgeDecides` | core/src/bb84.rs:189-228 | a key is made exactly if the reply reads, 256 entries compare, at most 11 in 100 disagree and enough positions are left |
| `Bb84.AcceptDecides` | core/src/bb84.rs:235-246 | a verdict is accepted exactly on its own rate and count and enough positions |
| `Bb84.SiftedCount` | core/src/bb84.rs:316-318 | one bit for each position kept |
| `Bb84.SiftedAt` | core/src/bb84.rs:316-318 | each kept position's bit stands at its place in the key |
| `Bb84.SiftedIgnores` | core/src/bb84.rs:316-318 | what was said out loud or read in the wrong basis is not in the key |
| `Bb84.CleanChannel` | core/src/bb84.rs:146-246 | untouched, no compared bit disagrees, one end accepts exactly when the other judged well, and both hold the same material |
| `Bb84.ResendStates` | core/src/bb84.rs:255-266 | the eavesdropper's loop computes what she sends on |
| `Bb84.EavesdropperSeen` | core/src/bb84.rs:248-266 | of the compared entries exactly those disagree where her basis was wrong and chance read the other bit |
| `Exchange.Phone.Begin` | core/src/lib.rs:231-236 | leg 1 keeps what was prepared |
| `Exchange.Phone.MeasurePhotons` | core/src/lib.rs:240-249 | leg 2 keeps the measurement and the sender's SAE id |
| `Exchange.Phone.JudgeAnswer` | core/src/lib.rs:254-271 | leg 3 builds the master's bank or refuses, and forgets the exchange once it was judged |
| `Exchange.Phone.AcceptAnswer` | core/src/lib.rs:276-291 | the slave's bank is built or refused, and the exchange forgotten |
| `Exchange.CleanExchange` | core/src/lib.rs:231-291 | untouched, a bank is built exactly if 256 entries compare and enough positions are left; both phones then end with the same ordered keys, cut from the accepted material, opposite roles and each other as peer, whatever happened to their banks meanwhile |
| `Exchange.JudgedIsSpent` | core/src/lib.rs:263-269 | nothing judged can be judged again |
| `Exchange.AcceptedIsSpent` | core/src/lib.rs:285-289 | nothing accepted can be accepted again |
| `Exchange.UnreadableCostsNothing` | core/src/lib.rs:240-283 | a text that is no leg, or one nothing waits for, changes nothing |
| `BackgroundInvariant.AwaitKeeps` | app/src/background/pass.ts:62-96 | waiting for a run keeps who is listed, told, and in what order |
| `BackgroundInvariant.SettleKeeps` | app/src/background/pass.ts:91-101 | so does a run that settles |
| `BackgroundInvariant.ClearKeeps` | app/src/background/pass.ts:97-101 | so does clearing a variable in `finally` |
| `BackgroundSafety.NoCallBehind` | app/src/background/pass.ts:84-89 | when an action wakes, every pass call that waited for the same one was told before |
| `BackgroundSafety.NoGraphBehind` | app/src/background/pass.ts:84-96 | while a pass call waits for a settled action, no action is on a graph |
| `BackgroundSafety.StepKeeps` | app/src/background/pass.ts:43-173 | every call, settling and queued job keeps the invariant |
| `BackgroundSafety.NeverTwoGraphs` | app/src/background/pass.ts:80-173 | over every run at most one graph without an app is at work |
| `BackgroundSafety.WaitingEnds` | app/src/background/pass.ts:62-67 | waiting leads to a run at work, never in a circle |
| `BackgroundSafety.NoDeadlock` | app/src/background/pass.ts:62-173 | whenever a call waits and nothing is queued, something is at work that will end the wait |
| `BackgroundSafety.IdleMeansQuiet` | app/src/background/pass.ts:56-67 | where `backgroundIdle` comes back, no headless graph is at work |
| `BackgroundSafety.QuietOnceIdle` | app/src/background/pass.ts:43-67 | from then on there is none as long as an app is attached |
| `BackgroundProgress.PassDecides` | app/src/background/pass.ts:80-101 | after any run a pass called for starts, on a new graph or over at once if that throws, unless an app is there, another pass is really at work, or an unfinished action is waited for |
| `BackgroundProgress.WokenPassDecides` | app/src/background/pass.ts:84-101 | a pass call woken after an action starts unless an app or a pass is there by then |
| `BackgroundProgress.ActionDecides` | app/src/background/pass.ts:142-173 | a button pressed with no app there makes a new action, which waits for the one before, then for a pass, and else works |
| `BackgroundProgress.WokenActionDecides` | app/src/background/pass.ts:157-166 | past its waits an action works: on the app's services if one is there, else on a graph, if that can be built |
| `BackgroundProgress.JobsRun` | app/src/background/pass.ts:43-173 | what is queued can always run |
| `BackgroundProgress.IdleComesBack` | app/src/background/pass.ts:56-67 | every `backgroundIdle` has come back or waits, and with nothing queued something is at work for it |
| `BackgroundProgress.IdleAtOnce` | app/src/background/pass.ts:56-67 | it comes back at once exactly if neither a pass nor an action is there |
| `BackgroundProgress.HostsDecide` | app/src/background/pass.ts:43-54 | the app attached last is the one there until it detaches itself |
| `GoogleAuth.StepKeeps` | app/src/auth/googleAuth.ts:83-360 | every call, task start and answer keeps: cached and handed-out tokens are the address's own |
| `GoogleAuth.NeverAnothersToken` | app/src/auth/googleAuth.ts:174-360 | over every run a session's token is its own, a caller's token is its own unless the address is blank, and both are younger than five minutes |
| `GoogleAuth.OwnTokensExactly` | app/src/auth/googleAuth.ts:174-195 | every token handed out for an address is its own exactly if the address is not blank |
| `GoogleAuth.CachedTokensExactly` | app/src/auth/googleAuth.ts:81-151 | so is every token cached for it, at every point of every run |
| `GoogleAuth.BlankRunLeaks` | app/src/auth/googleAuth.ts:345-360 | a blank address is handed another mailbox's token |
| `GoogleTokens.SignedOutIsForgotten` | app/src/auth/googleAuth.ts:143-147 | over every run: once an address is signed out, or its grant found gone, no token minted before is handed out for it |
| `GoogleTokens.AllSignedOutAreForgotten` | app/src/auth/googleAuth.ts:338-341 | after the loop of a blanket sign-out no token minted before is handed out for anyone |
| `GoogleTokens.BlanketSignsAllOut` | app/src/auth/googleAuth.ts:330-344 | a blanket sign-out forgets each account seen and ends with nothing cached, nobody seen and nobody in front |
| `GoogleTokens.AskedIsServed` | app/src/auth/googleAuth.ts:345-360 | with the account asked for in front, a refresh or a restored session gets a new token of its own, cached for five minutes |
| `GoogleTokens.FrontIsServed` | app/src/auth/googleAuth.ts:299-307 | with nothing stored whoever is in front gets a session |
| `GoogleTokens.PickedIsServed` | app/src/auth/googleAuth.ts:279-290 | whoever is picked gets a session |
| `GoogleTokens.SignInPicks` | app/src/auth/googleAuth.ts:271-277 | signing in leads to the picker whether or not someone could be signed out first |
| `GoogleTokens.CachedIsServed` | app/src/auth/googleAuth.ts:345-355 | a cached token is served at once, also to callers that queued for it |
| `GoogleTokens.AnotherIsRefused` | app/src/auth/googleAuth.ts:182-192 | another account than the one asked for gets nobody a token and costs nobody theirs |
| `ImapIds.ParseOfMessageId` | app/src/mail/imap.ts:110-118 | every id with a folder reads back, whatever the folder's name |
| `ImapIds.MessageIdInjective` | app/src/mail/imap.ts:110-118 | two ids are one string exactly if they are one id |
| `ImapMoves.FollowKeeps` | app/src/mail/imap.ts:250-255 | following moves stays with the message or ends at an id that is refused |
| `ImapMoves.StepKeeps` | app/src/mail/imap.ts:371-439 | every step of the server, of other clients and of this one keeps ids and messages together |
| `ImapMoves.NeverAnotherMessage` | app/src/mail/imap.ts:257-267 | over every run a command sent for an id acts on the message it was handed out for, or on nothing |
| `ImapTracking.ChainGrows` | app/src/mail/imap.ts:393-394 | a noted move makes that chain one longer and no other |
| `ImapTracking.CurrentAfter` | app/src/mail/imap.ts:250-255 | where an id leads after a step |
| `ImapTracking.CurrentIsWhereItIs` | app/src/mail/imap.ts:250-255 | while at most 16 moves of a message were noted, the server told each and no one else touched it, its id leads to where it is |
| `ImapActing.ListHandsOut` | app/src/mail/imap.ts:273-327 | a list hands out an id for every message there, each for its own |
| `ImapActing.LocateRefuses` | app/src/mail/imap.ts:257-267 | an id is refused exactly if its place was not told, or its folder is gone or was rebuilt |
| `ImapActing.StoreActs` | app/src/mail/imap.ts:371-395 | from any state a run leads to: a change of flags by an id whose message is in place reaches that message, once |
| `ImapActing.MoveArrives` | app/src/mail/imap.ts:386-439 | from any such state a move the server tells of puts the message in the target, takes it from the source where that can be done, touches no other, and the id leads to it if at most 15 moves were noted before |
| `ImapActing.UntoldIsRefused` | app/src/mail/imap.ts:432-437 | a move whose place was not told leaves an id that is refused |
| `Paging.RestBelow` | app/src/mail/imap.ts:295-325 | below a page's last UID is exactly what the page left over |
| `Paging.WalkVisitsAll` | app/src/mail/imap.ts:273-327 | following cursors ends, and the pages laid end to end are all matching UIDs in strictly descending order |
| `Paging.StaleCursorEnds` | app/src/mail/imap.ts:284-290 | under another UIDVALIDITY a cursor gives an empty last page |
| `UidSets.UidRuns` | app/src/mail/imapWire.ts:226-236 | the loops give runs apart from each other that denote exactly the UIDs |
| `UidSets.RunsAreUnique` | app/src/mail/imapWire.ts:225-236 | there is one way to write a set in such runs |
| `UidSets.ReadOfUidSet` | app/src/mail/imapWire.ts:226-236 | a server reads back the runs written |
| `ByteQueues.ByteQueue.Push` | app/src/mail/socket.ts:139-150 | the chunk stands after what was held, through growth and compaction |
| `ByteQueues.ByteQueue.IndexOfCrlf` | app/src/mail/socket.ts:157-162 | the first CRLF, or none |
| `ByteQueues.ByteQueue.Peek` | app/src/mail/socket.ts:164-166 | the bytes asked for |
| `ByteQueues.ByteQueue.Take` | app/src/mail/socket.ts:169-174 | the first bytes come off the front |
| `ByteQueues.RelocatesFewerThanTwice` | app/src/mail/socket.ts:122-150 | pushing relocates fewer than two bytes for each one pushed, whatever the chunks |
| `Framing.DrainGoesOn` | app/src/mail/imapWire.ts:46-68 | draining one chunk after another is draining them together |
| `Framing.AnyCutting` | app/src/mail/imapWire.ts:34-68 | any two cuttings of a stream give the same responses and leave the same behind |
| `ImapReader.ResponseReader.Push` | app/src/mail/imapWire.ts:46-68 | the loop yields exactly the responses completed and keeps the rest |
| `ImapReader.AnyChunks` | app/src/mail/imapWire.ts:34-68 | the reader's answers do not hang on how the bytes arrived |
| `ImapReader.ResponsesArrive` | app/src/mail/imapWire.ts:34-68 | responses framed by a server, literals included, come out one by one as they went in |
| `ImapReader.MarkerAnnounces` | app/src/mail/imapWire.ts:53-55 | a literal's marker announces its number |
| `ImapReader.PlusMarkerAnnounces` | app/src/mail/imapWire.ts:53-55 | so does the marker with a plus sign |
| `ImapReader.OnlyMarkersAnnounce` | app/src/mail/imapWire.ts:53-55 | and nothing else announces a literal |
| `SmtpReplies.Session.Receive` | app/src/mail/smtp.ts:112-124 | the loop yields exactly the replies completed |
| `SmtpReplies.AnyReplyChunks` | app/src/mail/smtp.ts:112-124 | whatever the chunks |
| `SmtpReplies.ReplyArrives` | app/src/mail/smtp.ts:112-124 | a multi-line reply comes out whole |
| `SmtpReplies.CodedLinesAreReply` | app/src/mail/smtp.ts:112-124 | lines under one code, dashed but for the last, are one reply |
| `SmtpData.KeepHeaders` | app/src/mail/smtp.ts:69-78 | the loop keeps the lines of fields that are not `Bcc` |
| `SmtpData.KeptFields` | app/src/mail/smtp.ts:68-78 | exactly the `Bcc` fields are gone, folds and all, the rest whole and in order |
| `SmtpData.BuildData` | app/src/mail/smtp.ts:62-85 | the data is the specified one |
| `SmtpData.PartsAreLines` | app/src/mail/smtp.ts:63-66 | header lines, an empty line and body lines are the message's lines |
| `SmtpData.ServerReceives` | app/src/mail/smtp.ts:57-85 | a server takes in, up to the one lone dot, the other fields, an empty line and the body up to a final newline |
| `SmtpData.NoBccKept` | app/src/mail/smtp.ts:8-10 | no `Bcc` line is sent |
| `SmtpData.BccExactly` | app/src/mail/smtp.ts:68-78 | a `Bcc` line is one by its name in any case, then space and a colon, and by nothing else |
| `Mbox.QuotedLine` | app/src/mail/mbox.ts:72-75 | no quoted line is a `From ` line, and unquoting takes the mark at its front back |
| `Mbox.MboxReadsBack` | app/src/mail/mbox.ts:40-75 | an mboxrd reader finds exactly the messages, in order, newlines normalised and a final one ensured |
| `Mbox.MboxRoundTrip` | app/src/mail/mbox.ts:18-75 | each comes back as it was exactly if no line hides a `From ` behind a separator |
| `Mbox.SeparatorHidesFrom` | app/src/mail/mbox.ts:73-75 | such a line exists |
| `Mbox.EnvelopeSays` | app/src/mail/mbox.ts:51-58 | the envelope names the sender, or stands for one unknown or blank, and then the time stamp |
| `Base64.BytesToBase64` | app/src/lib/base64.ts:11-23 | the loop computes the encoding |
| `Base64.Base64ToBytes` | app/src/lib/base64.ts:25-40 | the loop, with its moving write position, computes the decoding |
| `Base64.RoundTrip` | app/src/lib/base64.ts:11-40 | decoding what was encoded gives every byte sequence back |
| `Base64.StrictRoundTrip` | core/src/qkd.rs:151-168 | so for the core's strict decoder |
| `Base64.NoiseIsDropped` | app/src/lib/base64.ts:25-27 | what is no digit does not change what is decoded |
| `Base64.Alphabet` | app/src/lib/base64.ts:9-23 | the digits are those of table 1 of RFC 4648 |
| `Base64.Vectors` | app/src/lib/base64.ts:11-23 | encodings that section 10 of RFC 4648 gives |
| `Utf8.Utf8ToBytes` | app/src/lib/base64.ts:42-55 | the loop computes the encoding |
| `Utf8.BytesToUtf8` | app/src/lib/base64.ts:78-95 | the loop computes the decoding |
| `Utf8.Utf8ByteLength` | app/src/lib/base64.ts:64-76 | the loop computes the length |
| `Utf8.RoundTripExact` | app/src/lib/base64.ts:42-95 | a text comes back exactly if each high surrogate but a last one is followed by a low one |
| `Utf8.Vectors` | app/src/lib/base64.ts:42-55 | an encoding of each length, after section 7 of RFC 3629 |
| `Utf8.ByteLengthExact` | app/src/lib/base64.ts:57-76 | the counted length is never short, and is the encoding's exactly if every high unit makes a four-byte point with the unit it takes, as paired ones do |
| `Utf8.LengthsDisagree` | app/src/lib/base64.ts:57-76 | a text where the two differ |
| `Utf8.EncodeIsText` | app/src/lib/base64.ts:42-55 | what is written is valid UTF-8 exactly if every point taken is a scalar value |
| `Rfc822.ParseHeaders` | app/src/core/mime.ts:50-55 | the loop computes the header map |
| `Rfc822.ParseOfText` | app/src/core/mime.ts:44-57 | header lines and content written are read as just that |
| `Rfc822.ParamIs` | app/src/core/mime.ts:196-199 | a quoted parameter is found behind text its name cannot begin in |
| `Multipart.PiecesOfTree` | app/src/core/mime.ts:185-193 | a tree free of stray delimiters is cut into exactly its parts |
| `MimeParts.EncodedReads` | app/src/core/mime.ts:208-219 | wrapped data is read back whole |
| `MimeTree.CollectFiles` | app/src/core/mime.ts:222-246 | the loop computes the files of a list of parts |
| `MimeRoundTrip.AttachmentReads` | app/src/core/mime.ts:208-246 | an attachment's part reads as its name, type and data |
| `MimeSealed.BuildIsTree` | app/src/core/mime.ts:291-317 | the joined lines are the header and a tree of parts |
| `MimeReadBack.OpensFirst` | app/src/core/mime.ts:328-337 | a nested alternative is opened in place, plain parts stay |
| `MimeReadBack.SealedReadsBack` | app/src/core/mime.ts:291-414 | a protected tree reads back as the trimmed subject, both bodies up to trailing newlines, and every file in order |
| `MimeReadBack.EnvelopeReadsBack` | app/src/core/mime.ts:291-317 | its header names sender and recipients as given |
| `MimeForeign.AroundIsDropped` | app/src/core/mime.ts:185-193 | text before the first delimiter line and after the last belongs to no part |
| `MimeForeign.FoldedHeaderReads` | app/src/core/mime.ts:44-57 | a header folded over lines reads as on one, with one space |
| `MimeForeign.SinglePartReads` | app/src/core/mime.ts:386-397 | a tree that is a single part has that part's text, decoded and trimmed, for its body, and for its HTML if it is markup |
| `NewMail.AnnouncedIsRecorded` | app/src/notifications/newMail.ts:121-146 | what is announced was not seen, is recorded and is pending; a first sync announces nothing |
| `NewMail.LastGrows` | app/src/notifications/newMail.ts:188-191 | the ids kept are the last 500 recorded |
| `NewMail.NotAgainTooSoon` | app/src/notifications/newMail.ts:114-151 | over every run an id recorded again comes after 500 other ids, and pending ids are distinct and unread in the last sync |
| `NewMail.AnnouncedExactly` | app/src/notifications/newMail.ts:97-146 | after any run: announced are exactly the rows that announce themselves and are not among the ids kept; pending are exactly those and the ones before that are unread now |
| `NewMail.NewIsAnnounced` | app/src/notifications/newMail.ts:121-146 | no new mail is missed: a row never recorded that announces itself is announced |
| `NewMail.FreshInOrder` | app/src/notifications/newMail.ts:131-132 | rows are announced in the order they are listed |
| `NewMail.LookedClears` | app/src/notifications/newMail.ts:148-151 | looking clears the count and nothing else |
| `AppLock.GuessingIsSlow` | app/src/applock/appLock.ts:141-170 | from the twelfth wrong PIN on, 3810 seconds after the fifth and an hour more for each further |
| `AppLock.BoundIsMet` | app/src/applock/appLock.ts:151-170 | trying as soon as allowed takes exactly that long |
| `AppLock.RightPinStartsOver` | app/src/applock/appLock.ts:156-163 | a right PIN leaves no cooldown and no miss counted |
| `AppLock.RemainingIs` | app/src/applock/appLock.ts:164-170 | after a wrong one what is left of the cooldown due remains |
| `Links.TrimUrl` | app/src/lib/links.ts:58-70 | the loops compute the trimmed URL |
| `Links.TrimMeans` | app/src/lib/links.ts:51-70 | only sentence punctuation and closing brackets are dropped, and trimming again drops nothing |
| `Links.TrimExactly` | app/src/lib/links.ts:51-70 | the last character goes as long as it is punctuation or a closing bracket there are more of than of its opener, and no longer |
| `Links.UserinfoIsNotTheHost` | app/src/lib/links.ts:75-99 | what stands before an `@` is never the host |
| `Links.PortIsNotTheHost` | app/src/lib/links.ts:75-99 | a port is no part of the host |
| `Links.Linkify` | app/src/lib/links.ts:113-138 | the segments laid end to end are the text, and every link is a trimmed http(s) URL that names a host |
| `Links.PlainLinksAreShown` | app/src/lib/links.ts:113-138 | every clean link in plain prose is shown, whole, and the prose as prose: the text reads back as its pieces |
| `Links.InAWordIsNoLink` | app/src/lib/links.ts:118-124 | a link right behind a word is none |
| `Segments.CutText` | app/src/lib/links.ts:113-138 | the loop cuts the text where the specified scan does |
| `Rules.ApplyRules` | app/src/rules/rules.ts:146-184 | the nested loops compute outcomes and record |
| `Rules.OncePerMessage` | app/src/rules/rules.ts:137-184 | a rule is recorded once per message, and what was recorded stays |
| `Rules.NeverAgain` | app/src/rules/rules.ts:161-172 | no outcome holds a rule that had acted on that message |
| `Rules.ActiveExactly` | app/src/rules/rules.ts:146-150 | rules that run are those enabled, with conditions none blank and an action |
| `Rules.HoldsExactly` | app/src/rules/rules.ts:90-122 | a condition holds exactly if its words, in any case, occur in the field it names as this device can read it |
| `Rules.OutcomesExactly` | app/src/rules/rules.ts:146-184 | a message has an outcome exactly if a rule acts on it; its flags and labels are exactly those the rules that act ask for and that change something; and they are remembered |
| `Rules.CiphertextDecidesNothing` | app/src/rules/rules.ts:90-122 | outcomes do not hang on an encrypted message's outer subject or snippet |
| `Rules.SealedMatchesBySenderOnly` | app/src/rules/rules.ts:99-122 | an encrypted message not opened here matches only by its sender |

## Left out

- AES-GCM, HKDF, OpenPGP, Argon2 and PBKDF2 themselves: the AEAD is ideal (what opens was sealed so, and no two sealings agree), derivations are injective or any function of the right shape.
- Probability: random draws are parameters or new ids; nothing is said about how likely an error rate is. Key ids are 27 of 28 seed digits and random, taken as new.
- The error rate as a 64-bit float: it is an exact rational. For the at most 2^24 states allowed, rounding cannot move a quotient across the bound.
- Files, JSON, FFI and crash points: a stored bank, a kept exchange or a sealed file is a value; what does not read as its message is an absent value.
- Recovery codes and mail addresses are taken as folded already (`recovery::normalise`, trimming, lower-casing); lower-casing elsewhere is ASCII only.
- Plaintexts of quantum mail are the UTF-8 octets a Rust string is made of. SAE ids and key ids in a written header hold no line break, no surrounding space and no END line, as the ids the core makes.
- JavaScript strings are sequences of characters, not UTF-16 units, except in `Utf8` and for HTML bodies.
- The value of a lone leftover base64 digit: it gives no byte, as in the app's decoder.
- Base64 data URLs and `base64url`, header decoding (RFC 2047), IMAP value tokenizing, command literals, folder discovery and APPEND: they would add smaller members of the same kinds.
- IMAP sessions are one selected folder; the connection's sockets, timers, capabilities and STARTTLS are not modelled. A list's FETCH attributes are not, only which UIDs it names.
- Quoted-printable and single-byte character sets, which only other clients' trees hold, are a parameter of the parse. The `inline` flag, sizes and generated ids of attachments are not read back (a file name that contains "inline" sets the flag).
- `MimeReadBack.SealedReadsBack`: subjects are on one line and bodies free of carriage returns and delimiter lines; names are non-empty and without quotes, types are single and no multipart, as the app makes them.
- `Mbox.MboxReadsBack`: the envelope's sender and time stamp are on one line; writing the time stamp itself is not modelled.
- Play services' front account changes only by this module's calls. Its dialogs and the lock exemption around them are not modelled.
- The services a background pass runs: it is at work until it settles, and settles at any time.
- Pruning the record of rules that fired, editing rules, describing them, and the categoriser's tests behind a row's labels.
- Screens, navigation, storage, notifications as the OS shows them, contacts, drafts, search, and the Gmail, Graph and Microsoft connectors.

# Verified model of the switching back end

A Dafny model of the parts of the back end in which several writers touch the same
rows, or in which text is parsed, printed and compared, with proofs of what holds of
them in every run. It covers six components.

- **Addresses** (`Address`, `AddressPatterns`, `PrintedLines`, `LetterCase`,
  `AddressRoundTrip`, `OtherSpellings`, `Reconcile`, `BillAddress`, `CaseFields`,
  `StoredValues`): the one-line address parser and printer, the patterns of its scanners,
  their exact round-trip domain in any case of letters, the merge of a printed line with
  five fields, the two views of a bill's address, and the address and contract writers of
  a case.
- **Switch lifecycle** (`Statuses`, `SwitchDesk`, `SwitchService`,
  `SwitchEffects`, `SwitchInvariants`): bills, cases, offers, suppliers, verifications and sent offers
  under every service call that writes the modelled columns, the association of a bill
  with a customer and the scheduled deletions included. `SwitchDesk` gives each call as a function
  of the tables, `SwitchService` carries it out in place and is proved equal to it,
  `SwitchEffects` says of every call what each row holds afterwards, and
  `SwitchInvariants` what every run keeps.
- **Sent offers** (`SentOffers`, `OfferViews`, `Sorting`): the append, the
  rearrangement and the two lists drawn from the same rows.
- **Notifications** (`Placeholders`, `VariableValues`, `RecipientText`, `WhatIsSent`,
  `NotificationLog`, `NotificationEvents`): the placeholder scanner and renderer, which
  column each variable shows, the skipped lookups of a send, the preview, and the
  exactly-once log behind two status columns.
- **Accounts and consent** (`AuthDesk`, `AuthService`, `AuthInvariants`,
  `AuthSessions`, `AuthAccounts`, `Versions`, `WrittenVersions`, `LegalPages`, `PageRows`,
  `DocumentVersions`, `ConsentGate`, `WhoIsAsked`, `GateOverTime`): one-time codes, reset
  tokens, passwords and refresh tokens, document versions, and the consent gate over runs
  of publishing and accepting.
- **Checks and migrations** (`TaxIds`, `TaxIdForms`, `PreSync`, `BootEffects`): the check
  characters of Codice Fiscale and Partita IVA, and the idempotent statements run before
  the schema is synchronised.

`Wrappers`, `Text`, `Sorting`, `InsertionOrder` and `ChangeLog` are shared. `dafny verify
dfyconfig.toml` checks the whole project.

Where a service method reads and writes tables, a function over a record of tables says
what the call makes of them, a class method does it in place and is proved equal to the
function, and the properties are lemmas about the function and about runs of it. Each
call is one atomic step. Times are integers (the two contract dates of a case arrive as
instants and are stored as days), generated ids are fresh numbers, a hash is
the string it was made from, and the result of a mail or of a failing query is a
parameter.

## Where the code does not keep its own rule

Where a rule the code is written for can fail, the exact condition is proved for all inputs,
and a concrete input shows the failure.

- The address round trip holds exactly when every field stands where a line puts it and no
  name is written in capitals throughout (`AddressRoundTrip.RoundTrip`); a city alone is
  read back as a street, and a street in capitals as one in capitalised words. A line
  printed in capitals gives back exactly the names in capitalised words
  (`AddressRoundTrip.CapitalsReadBackIff`).
- Merging an address with its own line changes nothing exactly when the line fills none of
  its gaps (`Reconcile.OwnLineIsFixpointIff`); a city alone gains a street
  (`Reconcile.LoneCityGainsAStreet`).
- One open case per bill holds exactly as long as no `updateCase` reopens a case its
  bill has replaced (`SwitchInvariants.StepAndOnlyNewestOpen`).
- Dates on a case in activation hold exactly as long as no transition targets a status
  with no case status (`SwitchInvariants.StepAndDates`): the request is validated against
  every bill status, the OCR failure included, not against the selectable ones.
- The expiry is on a later day than the activation exactly as long as no accepted request
  sends two instants of one day (`SwitchInvariants.StepAndLasting`): the guards compare
  instants, the columns hold days. A case stored that way then refuses every edit that
  leaves its dates alone (`SwitchInvariants.OneDaySupplyBlocksEdits`).
- No supply expires before it starts exactly as long as no move to ACTIVATED sends one
  date beyond the other one stored (`SwitchInvariants.StepAndOrder`): that guard reads the
  dates of the request only.
- What a customer's list shows is what they can accept exactly as long as no bill with
  sent offers is merged away or given to another customer
  (`SwitchInvariants.StepAndSentRows`, `SwitchInvariants.ShownIsAcceptable`): the
  association looks at no sent row. A change of owner counts only if the save writes the
  column rather than the owner the bill was loaded with; both are modelled.
- The stamp of a bill's status says when that status was reached exactly as long as no
  document is asked for a second time while the bill waits for one and no case is filed on
  a bill whose last one was called off (`SwitchEffects.StampFollowsStatusIff`): both write
  the status together with the stamp whether or not it moves
  (`SwitchEffects.AskingAgainRestamps`).
- A running case names an offer of the catalogue exactly as long as no supplier without a
  live utility is removed under it and no case is set running again after its offer was
  withdrawn (`SwitchInvariants.StepAndListing`): the withdrawal of an offer looks for
  running cases, the removal of a supplier for live utilities only, and the two status
  edits at no offer.
- A document has one version across its translations exactly as long as no edit strays,
  by changing the version of a page that is no longer an agreement or by moving a page in
  at another version than the one in force (`DocumentVersions.UpdateKeepsOneVersionIff`),
  and never goes back exactly as long as no edit moves a page in while publishing an older
  version (`DocumentVersions.UpdateNeverGoesBackIff`).
- The old value in a change log is right exactly when the field was not written twice in
  one call (`CaseFields.SwitchCase.ApplyAddressFields`,
  `BillAddress.Bill.AdminUpdateAddress`); `CaseFields.FlaggedStreetIsWrittenTwice` and
  `BillAddress.ClearedStreetLogsTheSentLine` are the inputs.
- A verification request reaches the customer exactly when its wording holds no unknown
  variable and no case variable that is empty for that customer
  (`NotificationEvents.DocumentRequestRefusedIff`): otherwise the renderer refuses it and
  the trigger swallows the refusal.
- A second migration is a no-op, whatever order the contracts come back in, exactly when
  the first one settles both dates of every case (`PreSync.SecondBootIsNoOpIff`); one
  contract per case is enough (`PreSync.MigratingTwiceIsMigratingOnce`).
- An admin's password reset uses up the pending reset codes of the account; a token that
  was already handed back for one outlives it
  (`AuthInvariants.AdminResetLeavesTheToken`), until the next reset by the customer
  (`AuthInvariants.MintedTokenWorksUntilReset`).

The supplier migration explains itself by the order of its two status updates; they commute
(`PreSync.StatusUpdatesCommute`), and what it needs is that the column is read before it is
dropped (`PreSync.DroppingFirstWouldActivate`).

## Model

| member | source | states |
|---|---|---|
| AddressRoundTrip.RoundTrip | src/common/utils/address.utils.ts:162-254 | for well-formed fields, parsing the printed line gives the fields back if and only if each stands where a line puts it (a number behind a street, a city behind a CAP or a comma, a sigla or no trailing sigla) and no name is written in capitals throughout, single capitals aside |
| AddressRoundTrip.PlacedReadsBackAnyCase | src/common/utils/address.utils.ts:162-254 | however the letters of a printed line are cased, it is cut in the same places: number, CAP and sigla come back as they were, and the names come back letter for letter where the line has a small letter in them and in capitalised words where it has none |
| AddressRoundTrip.CapitalsReadBackIff | src/common/utils/address.utils.ts:166-175 | a printed line put in capitals reads back to the fields it was printed from if and only if street and city are written in capitalised words, a capital at the start and behind each blank and nowhere else |
| LetterCase.ParserIgnoresCase | src/common/utils/address.utils.ts:188-254 | for every string, a line and the same line in capitals are cut alike; in capitals it gives the same number, CAP and sigla and the names in capitalised words |
| LetterCase.NormalizeCaseIs | src/common/utils/address.utils.ts:166-175 | a name with a small letter is left as printed; any other becomes the one spelling in capitalised words |
| OtherSpellings.BareSiglaReadsBack | src/common/utils/address.utils.ts:207-212 | a line that ends in the sigla without brackets reads back like the printed one |
| OtherSpellings.SiglaIff | src/common/utils/address.utils.ts:27-37 | the pairs taken for a province are the official sigle |
| AddressPatterns.CivicTokenIff | src/common/utils/address.utils.ts:239 | the civic-number scanner takes exactly the strings put together as the pattern says |
| AddressPatterns.CityCommaIff | src/common/utils/address.utils.ts:224-236 | a line without a CAP is cut at its last comma, if something stands in front and something other than digits behind |
| AddressPatterns.ParenIsFound | src/common/utils/address.utils.ts:202 | two letters in brackets are found with their letters, wherever and however spaced |
| AddressPatterns.ParenIsThere | src/common/utils/address.utils.ts:202 | and nothing else is |
| AddressPatterns.TrailingIsFound | src/common/utils/address.utils.ts:207 | the last two letters of a line are found behind a blank, a comma or a dash |
| AddressPatterns.TrailingIsThere | src/common/utils/address.utils.ts:207 | and nothing else is |
| AddressRoundTrip.MisplacedIsReadElsewhere | src/common/utils/address.utils.ts:220-254 | fields that do not stand there are read back as other fields, whichever of the five is out of place |
| AddressRoundTrip.NumberWithoutStreet | src/common/utils/address.utils.ts:246-254 | a civic number printed without a street is read back with a street |
| AddressRoundTrip.CityWithoutStreet | src/common/utils/address.utils.ts:220-245 | a city printed with neither CAP nor street is read back as a street |
| PrintedLines.TakePrintedProvince | src/common/utils/address.utils.ts:196-212 | the province a line prints in brackets is what the parser takes off it, and nothing else |
| PrintedLines.SplitAtPrintedCap | src/common/utils/address.utils.ts:214-230 | a printed CAP is found where it was printed, with the street before it and the city behind |
| Reconcile.ReconcileAddress | src/common/utils/address.utils.ts:120-152 | a part held after cleaning is never overwritten, the recovered list is exactly the gaps the line filled in reading order, and the line is the rendering of the parts whenever there is one |
| Reconcile.OwnLineIsFixpoint | src/common/utils/address.utils.ts:120-152 | on well-placed fields with their own line nothing is recovered and nothing moves |
| Reconcile.OwnLineIsFixpointIff | src/common/utils/address.utils.ts:120-152 | merging any well-formed fields with the line printed from them recovers nothing and changes nothing if and only if no sigla ends the line, no number or CAP-less city stands without a street, no CAP hides in the city, no comma of a lone street makes a city, and the street is not cut at a number |
| Reconcile.LoneCityGainsAStreet | src/common/utils/address.utils.ts:130-147 | a city and nothing else is given a street by its own line |
| Reconcile.MilanoGainsAStreet | src/common/utils/address.utils.ts:130-147 | the same for Milano |
| Reconcile.LoneCityIsReadAsStreet | src/common/utils/address.utils.ts:70-88 | a city alone (or with its province) never survives the round trip |
| BillAddress.Bill.AdminUpdateAddress | src/modules/bills/bills.service.ts:601-664 | after an edit the five fields and the line are the synchronised pair; the change log names exactly what changed and a line written twice, each entry is given, and its old value is the stored one except for such a line |
| BillAddress.Bill.WriteSent | src/modules/bills/bills.service.ts:601-631 | the loop over the request writes each named column once, normalised, and records exactly what differs |
| BillAddress.Bill.SplitLine | src/modules/bills/bills.service.ts:655-664 | a line sent on its own sets the five fields to its parse |
| BillAddress.EditsKeepTheViewsInStep | src/modules/bills/bills.service.ts:633-664 | after any edit that changes the address, one view renders or parses to the other |
| BillAddress.ClearedStreetLogsTheSentLine | src/modules/bills/bills.service.ts:601-654 | a line Via Roma and one request that clears the street and sends the line Via Po: the line ends cleared and its log entry is Via Po to none |
| BillAddress.EditedFieldsAreTheLineIff | src/modules/bills/bills.service.ts:644-654 | after an edit of well-formed fields the line parses back to them if and only if they are well placed and no name is in capitals throughout |
| StoredValues.BillWordsAreStored | src/modules/bills/bills.service.ts:604-612 | street, number, city and line are stored as sent |
| StoredValues.BillCodesAreStored | src/modules/bills/bills.service.ts:606-610 | a province is stored without the blanks around it, a CAP if it is five digits, and anything else clears it |
| StoredValues.BillLogNamesTheMoved | src/modules/bills/bills.service.ts:622-664 | a column is logged for a value that moved, with the stored and the new one, or for a line the fields overruled |
| CaseFields.SwitchCase.ApplyAddressFields | src/modules/cases/cases.service.ts:972-1012 | every address column holds its final value (normalised, or the supply address in a flagged block); the change log names exactly what changed and what was written twice, each entry is given, and its old value is the stored one exactly when the field was not written twice |
| CaseFields.FlaggedStreetIsWrittenTwice | src/modules/cases/cases.service.ts:978-1009 | a flagged residence in Via Roma and a request for Via Po: nothing changes and the log holds the entry Via Po to Via Roma |
| CaseFields.SwitchCase.ApplyContractDetailFields | src/modules/cases/cases.service.ts:1026-1059 | contract details are normalised and the change map is exactly what differs |
| CaseFields.SwitchCase.WriteSupplied | src/modules/cases/cases.service.ts:978-1002 | the writing loop over distinct columns changes only what the request supplies and records exactly that |
| CaseFields.SwitchCase.CopySupplyAddress | src/modules/cases/cases.service.ts:1004-1009 | every flagged block becomes a copy of the supply address, in whichever order the fields are visited |
| CaseFields.SwitchCase.Correct | src/modules/cases/cases.service.ts:447-471 | both writers together leave every column at the value one request gives it |
| StoredValues.WordsAreStoredTrimmed | src/modules/cases/cases.service.ts:985-989 | prose columns hold what is sent without the blanks around it, and nothing where only blanks are sent |
| StoredValues.CapsAreStoredWhole | src/modules/cases/cases.service.ts:985-989 | a CAP is stored if it is five digits and clears the column otherwise |
| StoredValues.IdentifiersAreStoredInCapitals | src/modules/cases/cases.service.ts:1036-1048 | IBAN and tax code are stored in capitals, character for character |
| StoredValues.BlanksInIdentifiers | src/modules/cases/cases.service.ts:1036-1048 | and a blank anywhere in them changes nothing |
| StoredValues.FlagsAndNulls | src/modules/cases/cases.service.ts:991-1059 | flags are stored as sent, and a null clears any other column |
| StoredValues.SentIsStored | src/modules/cases/cases.service.ts:991-1059 | after a request each column it names holds the normalised value, the copies of the supply address aside |
| StoredValues.UnsentIsKept | src/modules/cases/cases.service.ts:991-1059 | and each it does not name holds what it held |
| StoredValues.LogNamesTheMoved | src/modules/cases/cases.service.ts:978-1012 | a column is logged for a value that differs, or for one overruled by the supply address, from the stored or the sent value to the final one |
| CaseFields.SavingSquaresTheBlocks | src/modules/cases/cases.service.ts:972-1012 | one request leaves every flagged block equal to the supply address and keeps CAPs five digits or null |
| CaseFields.HistoryStaysCoherent | src/modules/cases/cases.service.ts:447-471 | in every case reachable by filing and corrections, flagged blocks equal the supply address on all five fields and CAPs are five digits or null |
| CaseFields.SupplyCorrectionMovesTheCopies | src/modules/cases/cases.service.ts:960-971 | correcting the supply address alone moves every block flagged as its copy |
| Statuses.SelectableStatusesMoveTheCase | src/common/utils/bill-status-transitions.ts:110-113 | every selectable status maps to a case status, and only AWAITING_ACTIVATION to the activation one |
| Statuses.CaseStatusTells | src/modules/bills/bills.service.ts:1712-1728 | which case status each bill status stands for, one by one |
| SwitchService.Service.CreateCase | src/modules/cases/cases.service.ts:76-165 | the checks in the order of the source, then the case and the bill status, equal the specified step |
| SwitchService.Service.UpdateCase | src/modules/cases/cases.service.ts:414-524 | the same, for the admin edit of a case: offer, status, payment and dates, which arrive as instants, are compared as instants and stored as days |
| SwitchService.Service.TransitionBillStatus | src/modules/bills/bills.service.ts:1523-1573 | the same, for the admin move of a bill and the mirror on its newest case |
| SwitchService.Service.ApplyActivationDates | src/modules/bills/bills.service.ts:1633-1661 | dates are set, kept or stripped on the newest case as the target asks |
| SwitchService.Service.RequestVerification | src/modules/bills/bills.service.ts:1357-1390 | the same, for asking the customer for a document |
| SwitchService.Service.SubmitVerification | src/modules/bills/bills.service.ts:1407-1452 | the same, for the customer sending it |
| SwitchService.Service.SendOffersToUser | src/modules/bills/bills.service.ts:1029-1190 | the same, for a batch of offers |
| SwitchService.Service.AssociateBillWithUser | src/modules/bills/bills.service.ts:862-933 | the same, for an admin giving a bill to a customer or merging it into their pending one; whether the save writes the new owner is an input |
| SwitchService.Service.ReorderOffers | src/modules/bills/bills.service.ts:1205-1255 | the same, for a rearrangement |
| SwitchService.Service.UpdateOffer | src/modules/offers/offers.service.ts:324-372 | the same, for an edit of the catalogue |
| SwitchService.Service.UpdateOfferStatus | src/modules/offers/offers.service.ts:425-451 | the same, for a move of an offer |
| SwitchService.Service.DeleteOffer | src/modules/offers/offers.service.ts:374-423 | the same, for a withdrawal |
| SwitchEffects.RefusedChangesNothing | src/modules/bills/bills.service.ts:1518-1560 | a refused call of any kind has written nothing |
| SwitchEffects.StepMovesBills | src/modules/bills/bills.service.ts:1498-1506 | the status every accepted call leaves every bill in (a transition the target, a request VERIFICATION_REQUIRED, an answer VERIFICATION_REVIEW, a send OFFER_SENT, a filed case OFFER_ACCEPTED, a merge ANALYZING or PENDING_EMAIL), and which bills keep theirs and their stamp |
| SwitchEffects.StampFollowsStatusIff | src/modules/bills/bills.service.ts:1498-1506 | the stamp of a bill moves exactly when its status does, if and only if the call is neither a second request for a document nor a case filed on a bill whose last one was called off |
| SwitchEffects.AskingAgainRestamps | src/modules/bills/bills.service.ts:1380-1386 | a bill asked for a document on two days is stamped with the second |
| SwitchEffects.TransitionIsNotRepeated | src/modules/bills/bills.service.ts:1523-1547 | a transition sent a second time is refused |
| SwitchEffects.NewestCaseFollowsTheBill | src/modules/bills/bills.service.ts:1564-1573 | after a transition whose target stands for a case status, the newest case of the bill has it and no other case moves |
| SwitchEffects.TransitionDates | src/modules/bills/bills.service.ts:1633-1661 | the dates and the contract stamp a transition leaves on the newest case |
| SwitchEffects.CaseIsFiled | src/modules/cases/cases.service.ts:76-165 | the filed case is new, on the chosen offer and its supplier, without dates; it is the only row added |
| SwitchEffects.CaseIsEdited | src/modules/cases/cases.service.ts:414-524 | an edit of a case writes what is sent, keeps what is not and moves the supplier with the offer |
| SwitchEffects.NoSecondCase | src/modules/cases/cases.service.ts:90-99 | a bill with a case neither cancelled nor rejected takes no second one |
| SwitchEffects.DocumentIsAskedFor | src/modules/bills/bills.service.ts:1357-1390 | the bill's pending requests are closed and one is added; other bills keep theirs |
| SwitchEffects.MovingOnClosesTheRequest | src/modules/bills/bills.service.ts:1549-1560 | a transition elsewhere closes what the bill waited for |
| SwitchEffects.DocumentIsSent | src/modules/bills/bills.service.ts:1407-1452 | the latest open request of the bill is the one answered |
| SwitchEffects.SentOffersSuitTheCustomer | src/modules/bills/bills.service.ts:1095-1112 | no offer for business accounts goes to a personal one, nor the other way round |
| SwitchEffects.SuitableOffersAreSent | src/modules/bills/bills.service.ts:1095-1112 | and no other batch is refused for its audience |
| SwitchEffects.BatchIsOfStayingSuppliers | src/modules/bills/bills.service.ts:1084-1093 | no offer of a supplier leaving the catalogue is sent |
| SwitchEffects.OtherBillsKeepTheirRows | src/modules/bills/bills.service.ts:1142-1255 | a send or a rearrangement touches no row of another bill |
| SwitchEffects.OfferIsEdited | src/modules/offers/offers.service.ts:324-372 | each column of an offer is what was sent, or what it held: the two unit prices, the fees, the months and the days that follow from them |
| SwitchEffects.OfferIsEditedIff | src/modules/offers/offers.service.ts:279-372 | an edit goes through exactly on an unfrozen offer of the catalogue that ends up with the prices its market and energy ask for |
| SwitchEffects.PricedMeans | src/modules/offers/offers.service.ts:279-322 | which prices each market and energy ask for |
| SwitchEffects.OfferIsMovedIff | src/modules/offers/offers.service.ts:589-658 | which moves of an offer go through, by its status, its supplier and the open cases that name it |
| SwitchEffects.OfferCallsTouchOneOffer | src/modules/offers/offers.service.ts:374-451 | a move changes the status of its offer, a withdrawal its place in the catalogue, and neither anything else |
| SwitchEffects.OfferIsWithdrawnIff | src/modules/offers/offers.service.ts:374-423 | an offer is withdrawn exactly when no switch is under way on it and no supply has time left |
| SwitchEffects.SupplierDepartsAsItSupplies | src/modules/suppliers/suppliers.service.ts:258-320 | without supplies a supplier is removed with its offers; with supplies that end it is set to leave and its early cases are cancelled; with one that does not end the call is refused |
| SwitchEffects.ScheduledDepartureWaits | src/modules/suppliers/suppliers.service.ts:367-421 | on its day it is removed exactly if it supplies nobody any more |
| SwitchEffects.CasesArePaidAsSold | src/modules/cases/cases.service.ts:868-900 | in no run is a case filed or corrected to a payment its offer is not sold with |
| SwitchInvariants.StepAndOnlyNewestOpen | src/common/enums/case.enum.ts:39-42 | of all calls, exactly an updateCase whose guards pass and which reopens a replaced case breaks the rule that only a bill's newest case is open |
| SwitchInvariants.RunKeepsOnlyNewestOpen | src/modules/cases/cases.service.ts:90-99 | in every run without such a reopening a bill has at most one open case |
| SwitchInvariants.ReopeningGivesTwoOpenCases | src/modules/cases/cases.service.ts:476-524 | the escape on two concrete cases |
| SwitchInvariants.StepAndDates | src/modules/bills/bills.service.ts:1601-1661 | of all calls, exactly a move to a status with no case status strips the dates of a case left in activation |
| SwitchInvariants.RunKeepsDates | src/modules/cases/entities/switch-case.entity.ts:82-91 | in every run with selectable targets a case in AWAITING_ACTIVATION has both dates, the expiry on no earlier day |
| SwitchInvariants.ErrorStatusStripsDates | src/modules/bills/bills.service.ts:1712-1728 | the escape on a concrete case |
| SwitchInvariants.StepAndLasting | src/modules/cases/entities/switch-case.entity.ts:87-91 | the expiry is on a later day, besides stripped dates, exactly as long as no accepted pair of instants falls on one day |
| SwitchInvariants.RunKeepsLasting | src/modules/cases/cases.service.ts:494-524 | so in every run with selectable targets and no such pair |
| SwitchInvariants.OneDaySupplyIsStored | src/modules/bills/bills.service.ts:1615-1618 | eight in the morning to six in the evening passes the guard and is stored as one day |
| SwitchInvariants.OneDaySupplyBlocksEdits | src/modules/cases/cases.service.ts:513-521 | a case stored that way takes no further edit that leaves its dates alone |
| SwitchInvariants.StepAndOrder | src/modules/bills/bills.service.ts:1643-1655 | in any status no supply expires before it starts, except exactly after a move to ACTIVATED that sends one date beyond the other one stored |
| SwitchInvariants.LateActivationOutlivesTheSupply | src/modules/bills/bills.service.ts:1643-1655 | that escape on a concrete case |
| SwitchInvariants.StepAndListing | src/modules/suppliers/suppliers.service.ts:258-285 | a running case keeps its offer in the catalogue, of all calls, except exactly when a supplier with no live utility is removed under it, or when an update or a move of the bill sets it running after its offer was withdrawn |
| SwitchInvariants.RunKeepsListing | src/modules/offers/offers.service.ts:374-423 | so in every run without such a call, on any later day |
| SwitchInvariants.RemovedSupplierLeavesTheCase | src/modules/suppliers/suppliers.service.ts:460-471 | a supplier with one offer and one new case is removed at once, and the case is left with a withdrawn offer |
| SwitchInvariants.RevivedCaseHasNoOffer | src/modules/cases/cases.service.ts:414-426 | a cancelled case whose offer was withdrawn is set back to new |
| SwitchInvariants.RevivedByTheBill | src/modules/bills/bills.service.ts:1564-1573 | the same by a move of the bill |
| SwitchInvariants.StepKeepsFrozenOffer | src/modules/offers/offers.service.ts:613-658 | no call changes the terms of an offer an open case names, or makes it a draft |
| SwitchInvariants.FrozenWhileAccepted | src/modules/offers/offers.service.ts:324-350 | over any interleaving, until no open case names it |
| SwitchInvariants.StepKeepsOffersPriced | src/modules/offers/offers.service.ts:279-316 | no call leaves an offer without the price its market and energy ask for, or with days that are not its months |
| SwitchInvariants.StepKeepsOnePending | src/modules/bills/bills.service.ts:1498-1506 | a bill has at most one pending verification, and after a move has one exactly if it waits for one |
| SwitchInvariants.ShownIsAcceptable | src/modules/cases/cases.service.ts:122-140 | while sent rows are with their bill's customer, an offer can be accepted if and only if the customer's list shows it and it can still be taken |
| SwitchInvariants.AcceptingHidesTheBill | src/modules/offers/offers.service.ts:545-562 | accepting one offer takes all offers of the bill off the list |
| SwitchInvariants.SendingShowsTheBatch | src/modules/bills/bills.service.ts:1142-1168 | an accepted send shows its whole batch and hides nothing |
| SwitchInvariants.StepAndSentRows | src/modules/bills/bills.service.ts:862-933 | of all calls, exactly an association that goes through on a bill with sent offers and merges it away, or has the save write another owner, parts sent rows from their customer; places stay 0..n-1 |
| SwitchInvariants.RunKeepsSentRows | src/modules/bills/bills.service.ts:1142-1255 | in every run without such an association sent rows stay with their customer and places are 0..n-1 |
| SwitchInvariants.MovedRowsAreShownInVain | src/modules/offers/offers.service.ts:545-562 | after any such association the former owner is still shown every offer of the bill and can accept none |
| SwitchInvariants.NewOwnerAcceptsUnseen | src/modules/cases/cases.service.ts:81-132 | where the save has written another owner, that owner is shown none of the bill's offers and can accept every one that can be taken |
| SwitchInvariants.AnotherOwnerLosesTheOffer | src/modules/bills/bills.service.ts:930-932 | a concrete bill with one offer out, given to another customer by a save that writes the column |
| SwitchInvariants.MergedBillLosesTheOffer | src/modules/bills/bills.service.ts:875-928 | the same bill, merged into a pending one, whatever the save does with owners |
| SentOffers.AppendBatch | src/modules/bills/bills.service.ts:1142-1168 | the running-counter loop equals appending the unsent offers of the batch |
| SentOffers.SendKeepsArranged | src/modules/bills/bills.service.ts:1142-1168 | a send keeps earlier rows as a prefix, offers distinct and places 0..n-1 |
| SentOffers.SentAfterSend | src/modules/bills/bills.service.ts:1142-1168 | after a send exactly the earlier offers and the batch are sent |
| SentOffers.BatchFollowsRequest | src/modules/bills/bills.service.ts:1100-1141 | the batch is the request without what was not found, whatever order the query answers in |
| SentOffers.ReorderSentOffers | src/modules/bills/bills.service.ts:1205-1255 | the checks and the dense rewrite equal the specified rearrangement |
| SentOffers.ReorderArranges | src/modules/bills/bills.service.ts:1225-1255 | a rearrangement only changes places, puts named offers first in order and keeps the rest in their relative order, places 0..n-1 |
| SentOffers.TiedRowsStandByAge | src/modules/bills/bills.service.ts:1225-1255 | of unnamed rows in one place the earlier send stands first |
| SentOffers.ReorderIsIdempotent | src/modules/bills/bills.service.ts:1205-1255 | applied twice equals applied once |
| SentOffers.DenseCoversEveryPlace | src/modules/bills/bills.service.ts:1225-1255 | the places of a dense list are exactly 0..n-1 |
| SentOffers.BackfillArranges | src/database/pre-sync/index.ts:249-275 | the first-boot numbering gives places 0..n-1 by age |
| SentOffers.EveryRunIsArranged | src/modules/bills/bills.service.ts:1142-1255 | every run of sends, rearrangements and withdrawals keeps distinct offers and dense places |
| OfferViews.GetUserSentOffers | src/modules/offers/offers.service.ts:563-582 | the in-place grouping and sort equal the specified customer list |
| OfferViews.CustomerListIsGroupedAndOrdered | src/modules/offers/offers.service.ts:563-582 | the list is a rearrangement of the rows; what was sent for a later bill is matched by something sent no earlier for an earlier one, each bill is together and within a bill places ascend |
| OfferViews.GetAllOffersForBill | src/modules/bills/bills.service.ts:937-1026 | the admin list equals its specification |
| OfferViews.AdminListLeadsWithSent | src/modules/bills/bills.service.ts:1005-1026 | sent offers lead by place, the unsent tail keeps query order |
| OfferViews.ViewsAgree | src/modules/bills/bills.service.ts:1005-1026 | two rows in both lists come in the same order in both |
| Placeholders.MatchAtIsPlaceholder | src/modules/notifications/notification-variables.ts:154-155 | the scanner matches at a position exactly the substrings the placeholder pattern describes |
| Placeholders.ScanKeepsText | src/modules/notifications/notification-variables.ts:154-155 | scanning splits a text and loses nothing |
| Placeholders.ExtractVariables | src/modules/notifications/notification-variables.ts:182-190 | the scan collects the distinct tokens in first-seen order, the early exit included |
| Placeholders.RenderTemplateText | src/modules/notifications/notification-variables.ts:263-293 | one pass gives the specified text and the specified unresolved tokens, the early exit included |
| VariableValues.VariableIsReplaced | src/modules/notifications/notification-variables.ts:263-293 | a token is replaced where it stands, blanks in its braces or not, and the text on both sides stays |
| VariableValues.CaseValues | src/modules/notifications/notification-variables.ts:238-246 | a lone supplier, offer or utility variable renders the trimmed column of the case, or the word for the utility in the language |
| VariableValues.AccountValues | src/modules/notifications/notification-variables.ts:222-237 | a lone name falls back to the other name and then to the address, a lone family name to nothing |
| VariableValues.LoneUnresolved | src/modules/notifications/notification-variables.ts:277-290 | a lone token stops a send exactly if it names no variable or a case variable that comes out empty |
| VariableValues.UnknownStays | src/modules/notifications/notification-variables.ts:277-280 | a token that names no variable is left as it was written |
| VariableValues.ColumnIsReadByItsVariables | src/modules/notifications/notification-variables.ts:222-250 | two contexts that differ in one column of the account or the case render alike, and are refused alike, every text without the variables that read it |
| Placeholders.CaseDoesNotMatter | src/modules/notifications/notification-variables.ts:203-205 | a text naming no case variable renders and reports the same whatever the case |
| Placeholders.LanguageOnlyNamesTheUtility | src/modules/notifications/notification-variables.ts:207-252 | the language changes nothing but the word for the utility |
| Placeholders.UnresolvedIs | src/modules/notifications/notification-variables.ts:263-293 | a token is reported if and only if it occurs and is unknown or case-scoped and empty; none is reported twice |
| Placeholders.CheckedTemplateOnlyWantsACase | src/modules/notifications/notification-templates.service.ts:231-243 | a template that passes the authoring check is only ever refused for want of a case |
| RecipientText.LoadCaseContexts | src/modules/notifications/notifications.service.ts:332-378 | the newest-first loop keeps for each user the first row of the query |
| RecipientText.NewestCaseIsRead | src/modules/notifications/notifications.service.ts:332-378 | that row is the customer's newest undeleted case, or the named case if it is theirs |
| WhatIsSent.NewestCaseIsShown | src/modules/notifications/notifications.service.ts:336-366 | the case variables read supplier, offer and utility of the customer's newest case |
| WhatIsSent.NoCaseIsShown | src/modules/notifications/notifications.service.ts:332-378 | a customer without a live case, or whose cases cannot be read, has no value for them |
| WhatIsSent.PlainWordsAreSent | src/modules/notifications/notifications.service.ts:166-215 | without variables the caller's words go out, or the translated ones in the customer's language, a body of the caller's own first |
| WhatIsSent.SupplierIsNamedInTheBody | src/modules/notifications/notifications.service.ts:227-255 | a body with the supplier variable goes out with the supplier of the newest case in its place |
| WhatIsSent.UtilityIsNamedInTheBody | src/modules/notifications/notifications.service.ts:227-255 | and one with the utility variable with the word in the customer's language |
| WhatIsSent.RecipientIsNamedInTheBody | src/modules/notifications/notifications.service.ts:227-255 | and one with a name with the name of the recipient's own account |
| RecipientText.NamedCaseIsKeyedByOwner | src/modules/notifications/notifications.service.ts:327-331 | naming another customer's case leaves this one with none |
| RecipientText.CaseForIsPerCustomer | src/modules/notifications/notifications.service.ts:352-356 | a customer's case does not depend on who else is written to |
| RecipientText.ResolveTextPerUser | src/modules/notifications/notifications.service.ts:166-257 | with its three skipped lookups it gives every recipient the text, and reports in order the variables, of loading everything for everyone |
| RecipientText.BatchIsRefusedForOne | src/modules/notifications/notifications.service.ts:93-113 | a batch is refused if and only if a send to one of its recipients would be |
| RecipientText.RefusedBecause | src/modules/notifications/notifications.service.ts:104-113 | a send to one customer is refused for exactly the unknown tokens and the empty case tokens of the text they would get |
| RecipientText.BuildRenderContext | src/modules/notifications/notifications.service.ts:267-294 | the preview's lookups are those of a send to one |
| RecipientText.Preview | src/modules/notifications/notification-templates.service.ts:169-201 | a preview shows the text a send would store and names exactly the variables a send would be refused for |
| NotificationLog.KeysAreInjective | src/modules/notifications/notification-events.service.ts:136-171 | dedupe keys are equal only for the same kind, entity and event |
| NotificationLog.Outbox.InsertIgnoringDuplicates | src/modules/notifications/notifications.service.ts:389-400 | the rows written are the accepted ones of the batch, in order |
| NotificationLog.Outbox.SendNotification | src/modules/notifications/notifications.service.ts:93-152 | a refused send writes and pushes nothing; any other pushes exactly the rows it writes |
| NotificationLog.Outbox.ToCustomer | src/modules/notifications/notification-events.service.ts:512-538 | a refusal is swallowed and leaves nothing |
| NotificationLog.BatchAddsNewKeys | src/modules/notifications/notifications.service.ts:381-400 | a batch adds exactly the (user, key) pairs that were not stored |
| NotificationLog.StoredAreFirstOccurrences | src/modules/notifications/notifications.service.ts:116-137 | over every run the stored (user, key) pairs are the first occurrences of what was announced, none twice |
| NotificationLog.AnnouncedAtMostOnce | src/modules/notifications/notifications.service.ts:116-137 | a pair is stored once if announced and never otherwise |
| NotificationEvents.ColumnsShareMilestones | src/modules/notifications/notification-messages.ts:398-421 | a bill status and the case status it maps to share their milestone, except that offers-sent has none on the case |
| NotificationEvents.NotificationEventsService.OffersAvailable | src/modules/notifications/notification-events.service.ts:102-114 | the trigger leaves the row of its send, under the key of the offers milestone |
| NotificationEvents.NotificationEventsService.BillMilestone | src/modules/notifications/notification-events.service.ts:122-144 | silent statuses leave nothing, the others the row of their milestone |
| NotificationEvents.NotificationEventsService.CaseMilestone | src/modules/notifications/notification-events.service.ts:153-171 | the same from the case column, keyed by the bill, silent without one |
| NotificationEvents.NotificationEventsService.DocumentRequested | src/modules/notifications/notification-events.service.ts:174-192 | the admin's words are the body, keyed by the verification |
| NotificationEvents.NotificationEventsService.ApplicationSubmitted | src/modules/notifications/notification-events.service.ts:87-95 | one row per bill |
| NotificationEvents.BillNews | src/modules/notifications/notification-messages.ts:363-406 | which news each bill status is, one by one, and which are silent |
| NotificationEvents.CaseNews | src/modules/notifications/notification-messages.ts:413-421 | the same for the case column, keyed by the bill; a rejection is told as a cancellation |
| NotificationEvents.NoBillNoNews | src/modules/notifications/notification-events.service.ts:153-172 | a case without a bill is never news |
| NotificationEvents.OtherNews | src/modules/notifications/notification-events.service.ts:87-198 | the other triggers announce one thing each, under their own key |
| NotificationEvents.KeyTellsTheMilestone | src/modules/notifications/notification-events.service.ts:102-171 | an event carries a milestone's key if and only if it is news of that milestone of that bill |
| NotificationEvents.MilestoneIsStoredOnce | src/modules/notifications/notification-messages.ts:350-421 | over any interleaving of bill moves, case moves and batches a customer holds exactly one row per milestone that happened and none for the others |
| NotificationEvents.DocumentRequestRefusedIff | src/modules/notifications/notification-events.service.ts:174-192 | a document request is refused, and so lost, if and only if its wording holds an unknown token or a case token that comes out empty for that customer |
| NotificationEvents.UnknownVariableLosesTheRequest | src/modules/notifications/notification-variables.ts:263-293 | a request worded {{scadenza}} stores nothing |
| NotificationEvents.CaselessCustomerLosesTheRequest | src/modules/notifications/notifications.service.ts:104-113 | a request worded {{provider}}, all of whose tokens are known, stores nothing for a customer with no case |
| AuthService.Service.GenerateAndSaveOtp | src/modules/auth/auth.service.ts:921-967 | the method leaves the tables and the answer of the specified step |
| AuthService.Service.ConsumeOtp | src/modules/auth/auth.service.ts:995-1034 | the same, for checking a code |
| AuthService.Service.VerifyOtp | src/modules/auth/auth.service.ts:293-362 | the same, for redeeming one |
| AuthService.Service.ResendOtp | src/modules/auth/auth.service.ts:364-402 | the same, for sending one again |
| AuthService.Service.ForgotPassword | src/modules/auth/auth.service.ts:404-429 | the same, for asking for a reset code |
| AuthService.Service.ResetByToken | src/modules/auth/auth.service.ts:431-524 | the same, for a reset by token |
| AuthService.Service.ResetByCode | src/modules/auth/auth.service.ts:532-546 | the same, for a reset by code |
| AuthService.Service.RefreshToken | src/modules/auth/auth.service.ts:548-600 | the same, for an exchange |
| AuthService.Service.Login | src/modules/auth/auth.service.ts:234-291 | the same, for a sign-in |
| AuthService.Service.ChangePassword | src/modules/auth/auth.service.ts:624-673 | the same, for a password change |
| AuthService.Service.AdminResetPassword | src/modules/users/users.service.ts:606-631 | the same, for the admin's reset |
| AuthAccounts.SignsInIff | src/modules/auth/auth.service.ts:234-292 | a sign-in goes through exactly with the account's address and password, if it is neither pending nor suspended |
| AuthAccounts.StepMovesAccounts | src/modules/auth/auth.service.ts:293-673 | for every call and every account, column by column: the password is what an accepted reset, change or admin reset of this account gives it and otherwise what it was; the two marks and the status move by what the call proves |
| AuthAccounts.ChangesPasswordIff | src/modules/auth/auth.service.ts:624-660 | a change goes through exactly for who knows the password and sends another one twice |
| AuthAccounts.NewPasswordSignsIn | src/modules/auth/auth.service.ts:624-673 | after an accepted change or an admin's reset an account that may sign in does so with the new password and no other, and no other serves as the current one |
| AuthAccounts.ChangedOnce | src/modules/auth/auth.service.ts:624-673 | a concrete account before and after |
| AuthAccounts.OthersSignInAsBefore | src/modules/auth/auth.service.ts:624-673 | and every other account signs in as before |
| AuthAccounts.CodeIsSentIff | src/modules/auth/auth.service.ts:364-430 | a request leaves a new code exactly if it would write to the account of its address, none was sent within the minute and the mail goes out |
| AuthAccounts.CodeGoesOut | src/modules/auth/auth.service.ts:921-970 | only a mailed code can fail, and a failed one is not kept |
| AuthAccounts.SessionLastsAWeek | src/modules/auth/auth.service.ts:883-911 | the session of a sign-in is exchanged up to seven days later and not after |
| AuthAccounts.CooldownLastsAMinute | src/modules/auth/auth.service.ts:972-993 | a code keeps the next one back for sixty seconds |
| AuthInvariants.PerformMovesCodes | src/modules/auth/auth.service.ts:921-1034 | every call keeps at most one unused code per user and type, counts only wrong guesses, never un-uses a row, and compares a guess only with an unused row that has tries left |
| AuthInvariants.OneUnusedCode | src/modules/auth/auth.service.ts:921-930 | in every run at most one unused code exists per user and type |
| AuthInvariants.CodesAreGuessedAndRedeemedSparingly | src/modules/auth/auth.service.ts:1012-1033 | in every run at most five wrong guesses are compared with one code and it is redeemed at most once |
| AuthInvariants.RedeemsIff | src/modules/auth/auth.service.ts:995-1034 | a guess succeeds if and only if the user has that code pending, in time and with tries left |
| AuthInvariants.MailedCodeIsGoodForTenMinutes | src/modules/auth/auth.service.ts:932-945 | a mailed code, and only it, works until ten minutes later |
| AuthInvariants.FailedMailLeavesNothing | src/modules/auth/auth.service.ts:915-965 | a failed mail leaves no usable code and does not start the cooldown |
| AuthInvariants.ResetVoidsEarlierTokens | src/modules/auth/auth.service.ts:464-475 | any successful reset voids every reset token of the user minted before |
| AuthInvariants.TokenResetsOnce | src/modules/auth/auth.service.ts:484-524 | a reset token succeeds at most once |
| AuthInvariants.MintedTokenWorksUntilReset | src/modules/auth/auth.service.ts:338-351 | the token verify-otp hands back names its user until that user's next successful reset and nobody after |
| AuthInvariants.ResetAccountSignsIn | src/modules/auth/auth.service.ts:446-462 | after a reset the account signs in with the new password, pending or not, and with no other |
| AuthInvariants.AdminResetLeavesTheToken | src/modules/users/users.service.ts:606-631 | an admin reset ends every session and uses up every pending reset code of the account, and a token already handed back names its user still |
| AuthInvariants.AdminResetLeavesThisToken | src/modules/users/users.service.ts:606-631 | the same for one account and one code |
| AuthSessions.RefreshMovesByEffect | src/modules/auth/auth.service.ts:548-600 | each call moves the refresh tokens by one of six effects |
| AuthSessions.CallsCount | src/modules/auth/auth.service.ts:472-475 | an exchange conserves a user's open sessions, a sign-in adds one, a reset leaves none, a password change exactly one |
| AuthSessions.SessionsAreConserved | src/modules/auth/auth.service.ts:548-600 | over any run without eviction the open sessions are those signed in less those signed out |
| AuthSessions.RevokedStaysRevoked | src/modules/auth/auth.service.ts:582-584 | a revoked token stays revoked and no token disappears |
| AuthSessions.ExchangedOnce | src/modules/auth/auth.service.ts:548-565 | each token is exchanged at most once |
| AuthSessions.SignedOutStaysOut | src/modules/auth/auth.service.ts:602-613 | a sign-out closes its own session and no other, and that session is never exchanged again in any run |
| AuthSessions.EvictedSessionsNeverReturn | src/modules/auth/auth.service.ts:666-670 | a session open before a reset or a password change is never exchanged after it |
| Versions.CompareVersions | src/common/utils/version.util.ts:20-31 | the loop with its early return equals the specified comparison |
| WrittenVersions.WrittenVersionsCompare | src/common/utils/version.util.ts:12-32 | versions written as numbers with dots compare by the first numbers that differ, the missing ones zero: 2.10 is newer than 2.9 |
| WrittenVersions.WrittenIsRead | src/common/utils/version.util.ts:12-17 | the numbers of a written version are the numbers it was written from |
| WrittenVersions.NumbersAreRead | src/common/utils/version.util.ts:15-16 | a part is read past blanks, with its sign, up to what is no digit |
| WrittenVersions.NoNumberIsZero | src/common/utils/version.util.ts:15-16 | and counts as zero where no number stands |
| WrittenVersions.NothingWritten | src/common/utils/version.util.ts:20-42 | a missing version counts as 0 and the newest of none is 1.0 |
| Versions.CompareIsLexicographic | src/common/utils/version.util.ts:20-31 | its sign is the lexicographic order of the numbers padded with zeros |
| Versions.CompareChains | src/common/utils/version.util.ts:20-31 | not newer is transitive, strictly if either step is |
| Versions.CompareFlips | src/common/utils/version.util.ts:20-31 | older one way is newer the other way, and sameness is symmetric |
| Versions.TrailingZeroIsSilent | src/common/utils/version.util.ts:20-31 | a trailing ".0" does not change a version |
| Versions.MaxVersionIsNewest | src/common/utils/version.util.ts:34-42 | the result is one of the versions and none is newer |
| LegalPages.StaticPagesService.CreatePage | src/modules/static-pages/static-pages.service.ts:114-153 | the method leaves the rows and the answer of the specified step |
| LegalPages.StaticPagesService.UpdatePage | src/modules/static-pages/static-pages.service.ts:155-222 | the same, for an edit with its propagation |
| PageRows.SecondRowIsRefused | src/modules/static-pages/static-pages.service.ts:115-125 | a slug and a locale have one row, Italian where none is sent; a refused page changes nothing |
| PageRows.OneRowIsAdded | src/modules/static-pages/static-pages.service.ts:134-152 | an accepted page is one new row with the columns sent, dated exactly if it asks for acceptance |
| PageRows.FirstRowOfASlug | src/modules/static-pages/static-pages.service.ts:134-151 | the first row of a slug has the version sent or 1.0, is for everyone, and asks for acceptance by itself exactly for the two agreements |
| PageRows.TranslationFollows | src/modules/static-pages/static-pages.service.ts:127-151 | a translation is at the version in force and follows the oldest row in what is left open |
| PageRows.EditIsRefusedIff | src/modules/static-pages/static-pages.service.ts:155-188 | what an edit is refused for, in the order of the checks |
| PageRows.EditIsWritten | src/modules/static-pages/static-pages.service.ts:180-196 | the edited row has what is sent and keeps the rest, and a newer version is dated |
| PageRows.EditIsCarried | src/modules/static-pages/static-pages.service.ts:198-220 | a newer version of an agreement reaches version, date and summary of every other row of the slug and nothing else of them; no other edit reaches another row |
| PageRows.DeletionTakesTheRow | src/modules/static-pages/static-pages.service.ts:224-234 | a deletion takes the row and nothing else |
| DocumentVersions.DeleteKeepsTheDocument | src/modules/static-pages/static-pages.service.ts:224-232 | a deletion leaves the remaining translations at one version, and not at an older one |
| DocumentVersions.CreateKeepsTheDocument | src/modules/static-pages/static-pages.service.ts:127-139 | a new translation joins at the version in force |
| DocumentVersions.PublishingReachesEveryTranslation | src/modules/static-pages/static-pages.service.ts:200-217 | a publish carries version and date to every row of the slug and leaves the rest of them alone |
| DocumentVersions.UpdateKeepsOneVersionIff | src/modules/static-pages/static-pages.service.ts:180-217 | an edit keeps all rows of a document at one version if and only if it neither changes the version of a page that is no agreement afterwards nor moves a page in, unpublished, at another version than the one in force, with other rows there |
| DocumentVersions.UpdateNeverGoesBackIff | src/modules/static-pages/static-pages.service.ts:180-214 | an edit turns the version in force back if and only if it moves a page in and publishes an older one |
| DocumentVersions.UnacceptedRowStrays | src/modules/static-pages/static-pages.service.ts:180-204 | straying on two concrete pages |
| DocumentVersions.MovingInCanGoBack | src/modules/static-pages/static-pages.service.ts:163-214 | that escape on two concrete pages |
| DocumentVersions.VersionsOnlyGoForward | src/modules/static-pages/static-pages.service.ts:180-214 | in every steady run a document has one version throughout and it never goes back |
| ConsentGate.LegalService.GetDocumentStatuses | src/modules/legal/legal.service.ts:71-143 | the grouping, latest-acceptance and status loops equal the specified statuses |
| ConsentGate.LegalService.GroupBySlug | src/modules/legal/legal.service.ts:86-91 | the buckets are the rows of each slug and the keys are in first-seen order |
| ConsentGate.LegalService.LatestAccepted | src/modules/legal/legal.service.ts:99-106 | the loop keeps the newest acceptance per slug |
| ConsentGate.LegalService.AcceptDocuments | src/modules/legal/legal.service.ts:182-233 | unknown and stale items are refused and record nothing; the rest is recorded and what is still pending is returned |
| ConsentGate.LegalService.PersistAcceptances | src/modules/legal/legal.service.ts:380-407 | each item is inserted unless its (user, document, version) is there |
| ConsentGate.LatestIsNewest | src/modules/legal/legal.service.ts:99-106 | the acceptance kept is one of the user's and none is newer |
| ConsentGate.StatusIsListed | src/modules/legal/legal.service.ts:108-141 | every listed document binds the account, at the newest version of its rows, with the state the ledger implies |
| WhoIsAsked.ShownPageAsks | src/modules/legal/legal.service.ts:71-119 | whatever is shown is an active row that asks for acceptance and is addressed to everyone or to the account's own kind |
| WhoIsAsked.ListedIff | src/modules/legal/legal.service.ts:71-119 | a document is listed exactly if such a row exists |
| WhoIsAsked.AskedIff | src/modules/legal/legal.service.ts:113-163 | the gate asks for it exactly if every acceptance of the account is older than one such row |
| WhoIsAsked.NewAccountIsAsked | src/modules/legal/legal.service.ts:71-163 | an account without acceptances is asked for exactly the documents with such a row |
| WhoIsAsked.AudienceDecides | src/modules/legal/legal.service.ts:345-349 | a page for everyone asks both kinds of account, one for a single kind that kind alone, and none an admin |
| WhoIsAsked.StateIsOfTheLedger | src/modules/legal/legal.service.ts:93-119 | the state shown is that of the account's own acceptances |
| WhoIsAsked.AcceptableItem | src/modules/legal/legal.service.ts:195-217 | an item can be accepted exactly at the newest version of the rows that ask the account |
| WhoIsAsked.RefusalNames | src/modules/legal/legal.service.ts:195-217 | a refusal names what nobody asked the account for, or what is at another version |
| WhoIsAsked.AddedRowsAre | src/modules/legal/legal.service.ts:380-400 | an acceptance adds the account's rows for the items, dated with the call, in Italian where no language was sent |
| ConsentGate.GateAsksExactlyForPending | src/modules/legal/legal.service.ts:150-163 | the gate asks for a document if and only if it binds the account and no acceptance is new enough |
| ConsentGate.ShownInTheLanguageAskedFor | src/modules/legal/legal.service.ts:352-358 | the text shown is in the language asked for if one binds, else in Italian if one does |
| ConsentGate.StatusesAreInOrder | src/modules/legal/legal.service.ts:360-372 | privacy policy, then terms, then the rest |
| ConsentGate.AcceptableIff | src/modules/legal/legal.service.ts:195-217 | nothing is refused if and only if every item binds the account at the version in force |
| ConsentGate.RecordingOnlyAppends | src/modules/legal/legal.service.ts:375-407 | accepting keeps every earlier row with its timestamp and adds only rows for the items |
| ConsentGate.RecordingKeepsTheIndex | src/modules/legal/legal.service.ts:375-407 | the index on (user, document, version) stays unique |
| ConsentGate.AcceptingSettlesExactlyTheItems | src/modules/legal/legal.service.ts:219-232 | after an acceptance exactly the accepted documents have left the gate |
| ConsentGate.AcceptingAllEmptiesTheGate | src/modules/legal/legal.service.ts:182-233 | accepting all that is pending is never refused, empties the gate and changes no earlier row |
| GateOverTime.AskedAgainOnlyForANewerVersion | src/modules/legal/legal.service.ts:113-119 | over any steady run a user who had accepted the version in force is asked again if and only if a strictly newer one is in force and not accepted |
| GateOverTime.PublishingAsksEveryone | src/modules/static-pages/static-pages.service.ts:200-214 | a strictly newer publish makes every account it binds pending |
| GateOverTime.RunKeepsInForce | src/modules/static-pages/static-pages.service.ts:180-214 | over any steady run nobody has accepted a version that is not yet in force |
| TaxIds.IsValidCodiceFiscale | src/common/validators/is-italian-tax-id.validator.ts:108-123 | the loop accepts exactly the codes of the right shape, day and check letter, after normalising |
| TaxIds.IsValidPartitaIva | src/common/validators/is-italian-tax-id.validator.ts:89-105 | the loop accepts exactly eleven digits, with or without the prefix, whose Luhn sum is a multiple of ten |
| TaxIdForms.CodiceFiscaleIff | src/common/validators/is-italian-tax-id.validator.ts:44-123 | a code is accepted exactly if each place holds a character it may, the day is one of a month, or forty more, and the last letter is the rank of the sum of the weights |
| TaxIdForms.WeightsAre | src/common/validators/is-italian-tax-id.validator.ts:53-66 | what each letter weighs from odd and even places; a digit weighs like the letter of its rank |
| TaxIdForms.BirthdayIff | src/common/validators/is-italian-tax-id.validator.ts:111-116 | the day is read with the letters that stand for digits, and forty more for women |
| TaxIdForms.PartitaIvaIff | src/common/validators/is-italian-tax-id.validator.ts:89-105 | a number is accepted exactly as eleven digits, with or without the country, whose weights add up to whole tens |
| TaxIdForms.ExampleIsAccepted | src/common/validators/is-italian-tax-id.validator.ts:24 | the example code is accepted, and under no other last letter |
| TaxIdForms.NormalizedIs | src/common/validators/is-italian-tax-id.validator.ts:76-77 | blanks, full stops and hyphens go, letters become capitals, the rest stays in its order |
| TaxIds.SeparatorsDoNotMatter | src/common/validators/is-italian-tax-id.validator.ts:76-77 | a separator anywhere changes nothing |
| TaxIds.WeightsDiffer | src/common/validators/is-italian-tax-id.validator.ts:53-66 | two characters that fit one position never weigh the same from it, modulo 26 |
| TaxIds.OneWrongCharacterIsNoticed | src/common/validators/is-italian-tax-id.validator.ts:108-123 | changing one character of an accepted code is always rejected |
| TaxIds.AcceptedCodesDifferTwice | src/common/validators/is-italian-tax-id.validator.ts:108-123 | two accepted codes never differ in exactly one position |
| TaxIds.SwappedNeighboursAreNoticed | src/common/validators/is-italian-tax-id.validator.ts:108-123 | swapping two different neighbours among the first fifteen is accepted if and only if they are W and Y |
| TaxIds.CheckLetterIsUnique | src/common/validators/is-italian-tax-id.validator.ts:118-122 | one check letter fits |
| TaxIds.GeneratePartitaIva | src/database/seed/seed-all-users.ts:99-107 | every generated number is accepted |
| TaxIds.AcceptedNumbersDifferTwice | src/common/validators/is-italian-tax-id.validator.ts:89-105 | two accepted numbers never differ in exactly one digit |
| TaxIds.SwappedDigitsAreNoticed | src/common/validators/is-italian-tax-id.validator.ts:89-105 | swapping two different neighbouring digits is accepted if and only if they are 0 and 9 |
| PreSync.Database.RunPreSyncMigrations | src/database/pre-sync/index.ts:498-520 | the steps in place, in the order of the source, equal the specified pipeline |
| PreSync.Database.RenameMatchColumn | src/database/pre-sync/index.ts:129-138 | the rename and its three guards |
| PreSync.Database.HashCodes | src/database/pre-sync/index.ts:150-163 | pending codes are dropped with the plain column, once |
| PreSync.Database.SeedDisplayOrder | src/database/pre-sync/index.ts:249-275 | places are filled in only when the column is new |
| PreSync.Database.AddContractDurationMonths | src/database/pre-sync/index.ts:399-432 | months are derived once, and the days re-derived from them |
| PreSync.Database.FoldSupplierFlag | src/database/pre-sync/index.ts:354-381 | switch, then retired value, then the column is dropped |
| PreSync.SecondBootIsNoOpIff | src/database/pre-sync/index.ts:17-18 | a second boot changes nothing, in whatever order contracts come back, if and only if for every case and each of its two dates the case holds it, or the joined contract brings it, or no contract of the case has it |
| PreSync.MigratingTwiceIsMigratingOnce | src/database/pre-sync/index.ts:498-520 | a second boot changes nothing, whatever order contracts come back in, when no case has two |
| PreSync.SecondBootFillsIn | src/database/pre-sync/index.ts:102-112 | two contracts of one case met in another order: the second boot fills in a date the first left empty |
| PreSync.NoRetiredValueIsLeft | src/database/pre-sync/index.ts:6-16 | no row holds a retired enum value afterwards |
| PreSync.DatesAreOnlyFilledIn | src/database/pre-sync/index.ts:102-112 | a date a case has is kept, a missing one comes from its contract |
| PreSync.LoweringKeepsEmailsUnique | src/database/pre-sync/index.ts:176-204 | folding never makes two accounts share an address and leaves out only those that would |
| PreSync.SwitchedOffStaysOff | src/database/pre-sync/index.ts:354-381 | no switched-off supplier becomes usable and no usable one stops being |
| PreSync.AddressTypesSuitTheRole | src/database/pre-sync/index.ts:457-492 | every address of a known holder is of a type the role allows; places are untouched |
| PreSync.MonthsSurviveDays | src/database/pre-sync/index.ts:412-424 | for 1 to 60 months, months to days to months is the identity |
| PreSync.ConvertedOffersAgree | src/database/pre-sync/index.ts:408-424 | every converted offer is indefinite with no days, or has a term its days give back |
| PreSync.FirstBootArrangesOffers | src/database/pre-sync/index.ts:249-275 | the boot that adds the column arranges every bill, later boots leave it |
| BootEffects.BillStatusesRetire | src/database/pre-sync/index.ts:49-66 | the four retired bill statuses become contract_sent, and nothing else of any bill changes |
| BootEffects.CaseStatusesRetire | src/database/pre-sync/index.ts:68-74 | the same for the one retired case status |
| BootEffects.EventStatusesRetire | src/database/pre-sync/index.ts:76-87 | both columns of the history are rewritten, each from itself |
| BootEffects.CaseDatesFill | src/database/pre-sync/index.ts:93-120 | a date held under its column stays, and one filled in is that of a contract of the case |
| BootEffects.OnlyContractFillsIn | src/database/pre-sync/index.ts:102-112 | what a case held nothing of, its only contract gives |
| BootEffects.MatchesAreKept | src/database/pre-sync/index.ts:129-138 | the matches move to the new column with their values unless it was there |
| BootEffects.PlainCodesAreDropped | src/database/pre-sync/index.ts:150-163 | the boot that adds the hashes empties the table and drops the plain column, and no other touches it |
| BootEffects.AccountsFold | src/database/pre-sync/index.ts:176-204 | an account's address is put in small letters unless another has it in other letters; Facebook accounts end local; who they are stays |
| BootEffects.BusinessTermsAreRetired | src/database/pre-sync/index.ts:291-309 | the business terms end inactive and ask nobody, and every other page stays |
| BootEffects.SupplierStatusesFold | src/database/pre-sync/index.ts:354-381 | the status every supplier ends in, by its status and its switch |
| BootEffects.OfferTermsConvert | src/database/pre-sync/index.ts:399-432 | a derived term becomes indefinite with no days, any other the nearest month of one to sixty with the nearest days |
| BootEffects.AddressTypesFollowTheRole | src/database/pre-sync/index.ts:457-492 | a company's residence becomes its registered office, a person's registered office a residence, and nothing else moves |
| BootEffects.OrphanAddressesStay | src/database/pre-sync/index.ts:457-492 | without the column, or without its holder, an address stays as it is |
| BootEffects.TablesAreNeitherMadeNorLost | src/database/pre-sync/index.ts:498-520 | no table is made or lost, and each column added or dropped is there or gone |

## Left out

- Case mapping and digits outside ASCII: upper and lower case, like the letter classes of
  the patterns, cover the ASCII letters; whitespace is the full class of the language.
- Regular expressions are hand-written scanners, proved against the patterns they stand for
  (`Placeholders.MatchAtIsPlaceholder`, `AddressPatterns`, `TaxIdForms`).
- Numbers wider than a version segment's three digits: integers are unbounded.
- The cases of a bill are kept in the order they were created, so two cases created in the
  same instant are not modelled; sorting ties elsewhere keep the order of the table.
- Database races between concurrent requests: every call or transaction is one step. The
  writes of `resetPassword` and of `adminUpdateBill` are one step too.
- SwitchService.Service.UpdateCase: does not model the outgoing supplier, the agent, the
  handling fields and the timeline entries; the address and contract writers are modelled
  apart, in `CaseFields`.
- SwitchService.Service.CreateCase: does not model the delivery-point correction, the
  invoice e-mail lookup and the case number.
- SwitchService.Service.TransitionBillStatus: does not model the timeline entry; the
  milestone it triggers is modelled apart, in `NotificationEvents`.
- SwitchService.Service.SendOffersToUser: does not model the savings estimate (floating
  point), the stored snapshot and the notification; which requested offers exist is a
  parameter.
- SwitchService.Service.AssociateBillWithUser: does not model the analysis data handed to
  the pending bill; what the object mapper makes of a column set to another owner than the
  relation loaded with the bill is an input, `savesColumn`.
- The server's time zone: a day is a day of the clock the instants are counted on.
- Bills saved from a copy read earlier: the background analysis writes its status in one step.
- Catalogue edits: unique offer codes, numeric overflow and the public catalogue queries; an
  offer's creation is the arrival of a row, its descriptive columns are one text.
- The dates supplier deletions are scheduled for: a scheduled deletion is tried at any time.
- The triggers for rejected documents, reminders, support replies, tickets, referrals and
  admins: the same send under another key. The copy itself is a parameter.
- Push delivery: a push is the handing over of a stored row; tokens and devices are not modelled.
- Registration, social sign-in, profile data, expiry of signed tokens (a token that fails to
  verify is one case), and the timing equalisation of failed guesses.
- `recordAcceptanceFor` and the admin reports over acceptances; source, address and device
  recorded with an acceptance.
- The default pages written on start-up, page titles and contents.
- DTO decorators over tax identifiers and roles.
- A missing `users` table next to an existing `user_addresses` table reads as no users.
- Dashboard figures, meters, agreements, referrals, OCR, uploads, deep links, and the advisory
  `isValidTransition` table.

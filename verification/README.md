# proto2mysql: a verified model of its protocols

proto2mysql maps protobuf messages to MySQL tables. It writes rows under a fencing condition, aligns
table schemas with message descriptors during rolling releases, rebuilds tables whose key columns have
an old shape, caches rows for processes of different versions, and writes generated SQL files in one
batch. This project models those parts in Dafny and proves what they promise.

**Fenced saves** (`Fence`, `SaveStatements`, `ConditionalSave`, `SaveRuns`, `SaveGuarantees`,
`SaveReplies`, `SaveConvergence`, `PlainSave`). A table is a map from full primary keys to rows with an optional
alternate unique key. Each SQL statement is one atomic step; between any two of them any number of other
calls and foreign writers may run, rows may be deleted, and replies may get lost (the statement executed
or not). Whether an UPDATE counts matched or changed rows, what a column keeps of a written value, how the
row comparison judges a cell, and which columns the unique key spans are parameters. The loop itself is a
method of a class whose table other writers change before every statement; it is proved to be the step
program `ConditionalSave.Step`, about which all runs are then reasoned.

**Schema alignment** (`ColumnTypes`, `TableDef`, `NameOrder`, `ColumnPlanner`, `AlterTable`,
`SchemaConvergence`, `SchemaSync`, `SchemaFlapping`, `SchemaPlan`, `PlanLegality`, `TwoStatements`, `PlanExecution`, `PlanRunsExactly`,
`AutoIncrementPlan`, `AutoIncrementGaps`, `SchemaSettles`, `ColumnContents`). The planner's loops are proved equal to a
functional plan. A sync by one version is refused (by the planner, or because a column's attributes
drift) or runs its plan. ALTER has a semantics: all clauses of one statement apply at once to the columns the
table had, keys follow renamed columns, and MySQL refuses missing columns, double redefinitions, name
collisions, indexes over columns that do not exist, and auto-increment columns that lead no key or are
not alone. A sync holds an advisory lock from reading metadata to the last ALTER, so it is one step of a
run of many versions.

**Shadow rebuild** (`ShadowTable`, `ShadowMatch`, `ShadowCopy`, `IndexBudget`, `RebuildBudget`). Column claiming in two
passes, the definition of every shadow column, the copy statement, and the loop that shrinks key columns
to the index budget.

**Cache** (`CacheEnvelope`, `CacheRuns`, `CacheKeys`, `CacheInvalidation`). The envelope codec byte by
byte, including what `binary.Uvarint` accepts; runs of mixed versions over one cache; key encoding; and
deferred invalidation over a heap of handles that share one owner.

**File batches** (`AtomicFiles`). Staging, backup, installation, rollback and clean-up on a file system in
which every operation may fail.

## Findings

Where a promise is false of the code as it stands, the exact condition is proved.

- *Convergence to the newest version.* The stored fence always ends as the maximum, but the row is the
  message holding it exactly when that fence lies above the initial one or the initial row already was that
  message; otherwise the initial row stands (`SaveConvergence.NewestWins`). A strict save with the stored
  fence and other content is rejected (`TieKeepsTheStoredRow`, and one row and one message in
  `MaximumIsNotStored`).
- *Planning again is empty* exactly when no unclaimed online column carries the number of a declared field
  (`SchemaConvergence.PlanConverges`). Otherwise the first plan is accepted and the table it leaves can not
  be planned again (`CopiedCommentDoesNotConverge`).
- *No flapping.* Let the versions give every field number one name and ask comparable types and the same
  attributes for one name. Then column DDL comes to an end, from every table and over every run, exactly
  when every name also has one number (`SchemaFlapping.RestsIff`). Otherwise two versions taking turns from
  an empty table rewrite the column's comment at every sync (`OneNameTwoNumbersFlaps`, and two one-column
  versions in `OneColumnNeverRests`).
- *Both ALTER statements run* exactly under the condition of `AutoIncrementPlan.PlanRunsIff`. An accepted
  plan fails when an auto-increment column belongs to no field while another one is added
  (`AutoIncrementGaps.OrphanBreaksThePlan`), and when names are handed around, because the drift check looks
  columns up by name over the whole table while the planner hands them out field by field: then the key may
  be added without a leading key (`RotationBreaksThePlan`), or a new field may need the old name of a column
  whose rename waits for the primary key (`WaitingBreaksThePlan`).
- *The shadow copy and the planner choose the same columns* exactly when no earlier field without a
  namesake carries its number on the namesake of a later field (`ShadowMatch.MatchersAgreeIff`). The
  comment at keycolumns.go:498-500 says the two must match alike; the code does all names first. In the
  example of that comment, a field renamed while a new one takes its old name, the copy puts the old data
  into the new field and leaves the renamed one empty, where the planner renames the column
  (`ShadowMatch.RenamedDataGoesToTheNewField`).
- *Wider means holding more* on every scale of capacity (integers of one sign, TEXT types, BLOB types,
  fractions without fixed decimals, one sized type), and columns that match a declared type hold all the
  field sends. Off these scales the ladder of names is not one of capacities: TINYTEXT counts as wider than
  VARCHAR(191), and FLOAT(7,2) as wide as FLOAT (`ColumnContents.NamesAreNotCapacities`). Declared key
  columns are never kept as TINYTEXT; a fraction kept with fixed decimals is the one exception left
  (`ColumnContents.PlannedColumnsHold`).
- The comment at proto2mysql.go:375-377 says that pending cache deletions do not cross instances made by
  `WithContext`. The code shares the owner, so they do, and the model follows the code.

## Model

| member | source | states |
|---|---|---|
| Fence.AtMostTotal | conditional_save.go:287-291 | The fence order is total and antisymmetric |
| Fence.AtMostTransitive | conditional_save.go:287-291 | The fence order is transitive |
| Fence.FencePredicate | conditional_save.go:326-340 | The loop from the last column outwards builds the nested OR/AND condition, and one argument per placeholder in order |
| Fence.FencePredicateMeaning | conditional_save.go:319-340 | For any number of columns and any row, NULL cells included, the condition with its arguments bound left to right is true iff the row's fence is lexicographically below the target (or equal when allowed) |
| Fence.SqlAndGoAgree | conditional_save.go:287-340 | On rows without NULL fences, the decision inside the UPDATE and the decision on the tuple read back are the same |
| Fence.StrictZeroNeverHolds | conditional_save.go:209-212 | A strict condition against an all-zero target never holds, which is why it is refused |
| SaveStatements.ReadFence | conditional_save.go:199-208 | Fence columns are accepted iff they are distinct, declared, unsigned, non-key, not nullable and not auto-increment; then the target is the message's own tuple |
| SaveStatements.CheckPreserved | conditional_save.go:214-228 | Preserved columns are accepted iff they are distinct, declared, and neither key nor fence |
| SaveStatements.CollectColumns | conditional_save.go:230-241 | The UPDATE sets exactly the non-key, non-preserved columns and the INSERT all of them, each with the message's own value |
| SaveStatements.NewPlan | conditional_save.go:185-259 | Options are refused exactly when they are unacceptable; an accepted plan pairs every column with its own value |
| SaveStatements.KeysIdentify | conditional_save.go:247-251 | Two messages have one key iff they agree on every primary-key column |
| SaveStatements.WrittenColumns | conditional_save.go:294-317 | An UPDATE stores the columns it sets and leaves every other one, preserved ones included; an INSERT stores the whole message |
| SaveStatements.AdmitsMeaning | conditional_save.go:294-340 | The UPDATE's condition admits a row iff there is no fence or the row's fence is below the target |
| SaveStatements.FaithfulMatch | conditional_save.go:357-380 | With a comparison that agrees with MySQL's "would this write change the cell", matching rows are exactly those an UPDATE leaves unchanged |
| SaveStatements.WrittenFence | conditional_save.go:294-317 | A written row carries the message's fence tuple |
| ConditionalSave.StepRemembers | conditional_save.go:448-523 | What a call knows at each statement, whatever others do: a rejection tells a stored fence its condition does not hold on, a row comparison happens only with an equal fence |
| ConditionalSave.StepBurnsFuel | conditional_save.go:458-520 | Every statement brings the call nearer to its end |
| ConditionalSave.StatementsBounded | conditional_save.go:46-46 | However the table changes in between, the statements sent are bounded by the fuel left |
| ConditionalSave.Session.RunConditionalSave | conditional_save.go:448-523 | The loop gives the reply of the step program on the tables its statements found, leaves the tables it leaves, and sends at most eight statements |
| ConditionalSave.Session.Read | conditional_save.go:527-568 | The state query: absent, present with its fence tuple, or a NULL fence reported as drift |
| ConditionalSave.Session.Matches | conditional_save.go:570-587 | The row comparison settles the call, starts the next round, or reports a mismatch |
| SaveRuns.StepIsAtomicSave | conditional_save.go:448-523 | Every statement either settles its call as the one-step save would on that table, or leaves the table alone |
| SaveRuns.Linearizable | conditional_save.go:448-523 | In every interleaving, running the settled calls one after the other, each as one step at its recorded instant, gives every call its reply and ends in the same table |
| SaveRuns.InstantsInsideCalls | conditional_save.go:448-523 | The recorded instants lie inside their calls, in order, one for each settled call |
| SaveRuns.ErrorsWriteNothing | conditional_save.go:474-522 | A call that ends in duplicate key, race, mismatch, drift or a disappeared row has written nothing |
| SaveGuarantees.RespectfulStep | conditional_save.go:57-70 | A statement of a writer that respects the fence (same fence, or leaving it alone) never lowers any row's fence |
| SaveGuarantees.FencesNeverDecrease | conditional_save.go:57-70 | Over any stretch of a run without deletes by such writers, rows stay and their fences only grow |
| SaveGuarantees.TwoRoundsSuffice | conditional_save.go:44-46 | If all writers keep the fence and nobody deletes, a strict call never ends in a race, a mismatch, a disappeared row or drift |
| SaveGuarantees.RaceMeansInterference | conditional_save.go:30-41 | In any environment, deletes included, a race, mismatch or disappeared row implies that another writer changed this very row during the call |
| SaveGuarantees.AloneGivesVerdict | conditional_save.go:117-120 | The outcome table of an undisturbed call with its statement counts: 1 to update, 2 to reject, 3 to insert or find the row unchanged, 6 to a mismatch |
| SaveReplies.SessionIsExplained | conditional_save.go:448-523 | Every reply of the loop is justified by the tables its statements found: what was seen, compared, clashed or gone |
| SaveReplies.RepliesAreJustified | conditional_save.go:448-523 | The same for every call of every run |
| SaveReplies.DuplicateKeyMeans | conditional_save.go:485-502 | A duplicate-key error means that a statement found the wanted row in conflict with another one, or that the INSERT met its row and the row was deleted before the re-read |
| SaveReplies.InsertRacesAreResolved | conditional_save.go:485-502 | Where writers keep the fence, nobody deletes and there is no alternate unique key, no call reports a duplicate key, whoever wins the race to insert |
| SaveReplies.ReadsRejectAtOnce | conditional_save.go:505-515 | Either read of the row rejects a condition that does not hold at once, starts the next round on an older fence, and compares on an equal one |
| SaveReplies.ErrorsTellTheLastFence | conditional_save.go:505-522 | The fence a race or mismatch tells is the one last seen, and a mismatch means two comparisons denied on the same fence |
| SaveConvergence.ContestFenceGrows | conditional_save.go:48-70 | While strict writers race for a row, its stored fence never decreases |
| SaveConvergence.ChangedRowClimbs | conditional_save.go:288-340 | Among strict writers a changed row has a strictly larger fence |
| SaveConvergence.SameFenceSameRow | conditional_save.go:458-520 | As long as the stored fence is the initial one, the row is the initial row |
| SaveConvergence.NewestWins | conditional_save.go:458-520 | When all have settled, the fence is the lexicographic maximum of the initial fence and all messages'; the message holding it is the whole row iff it is newer than the initial row or was it already; if none is newer the initial row stands; exactly one call inserted iff the row was absent |
| SaveConvergence.TieKeepsTheStoredRow | conditional_save.go:288-291 | A strict save whose fence equals the stored one is rejected after two statements with the table unchanged, as a whole run |
| SaveConvergence.MaximumIsNotStored | conditional_save.go:288-291 | One row and one message with the stored fence: it holds the maximum and is not the row in the end |
| PlainSave.Connection.SaveByPrimaryKey | proto2mysql.go:3744-3806 | UPDATE, INSERT, UPDATE and comparison run as traced: which statement follows which result, on whatever tables they find, the reply, and any other error ending the call with the statement executed or not |
| PlainSave.SuccessMeansStored | proto2mysql.go:3744-3806 | Success implies that the row was the message at some instant of the call; no other row is ever changed; a conflict has written nothing, and an error wrote at most in the last statement |
| PlainSave.ConflictMeans | proto2mysql.go:3766-3804 | A conflict has a reason: a statement found a clash, or the row was deleted after the INSERT met it, or changed between retry and comparison |
| PlainSave.RetryResolvesTheRace | proto2mysql.go:3770-3783 | When the retried UPDATE finds the row and nobody changes the table after it, the save succeeds unless another row holds the unique value |
| PlainSave.UndisturbedCounts | proto2mysql.go:3754-3804 | The number of statements an undisturbed save sends |
| PlainSave.UndisturbedIsTraced | proto2mysql.go:3744-3806 | An answered call nobody disturbs is the undisturbed save |
| PlainSave.ConflictIsUniqueClash | proto2mysql.go:3766-3804 | Without interference a duplicate-key error occurs iff another row holds the alternate unique value; it changes nothing, and otherwise the wanted row is there and the key still unique |
| PlainSave.SaveCurrentRowMatch | proto2mysql.go:3318-3400 | The comparison takes the UPDATE's arguments apart: key arguments first, the others in field order; a wrong argument count is refused |
| PlainSave.MatchComparesTheMessage | proto2mysql.go:3318-3400 | On the UPDATE of a message, every conjunct compares its column with the message's own value, and all declared columns are compared |
| ColumnTypes.MatchIsWidth | proto2mysql.go:544-588 | Type matching is "comparable and at least as wide", suppression is "strictly wider", both measured by an independent width |
| ColumnTypes.MatchIsTotalPreorder | proto2mysql.go:544-588 | Within a family and signedness, matching is a total preorder |
| ColumnTypes.AlignedIsJoin | proto2mysql.go:1614-1622 | The aligned type is the join of the online and the declared type |
| ColumnContents.TargetHoldsExactly | proto2mysql.go:211-259 | The declared column holds exactly what its field sends: the range of the kind, the checked key length, the medium sizes, microseconds; only BOOL has room for more |
| ColumnContents.TargetAttributes | proto2mysql.go:211-259 | NOT NULL on keys and non-nullable numbers, a default that is the unset value so that writers not knowing the column can insert, the collation of keys |
| ColumnContents.ComparableIsSameSort | proto2mysql.go:592-665 | A column can be carried over iff both types are for the same kind of content; signs are the only convertible difference that is refused |
| ColumnContents.WiderHoldsMore | proto2mysql.go:544-588 | On one scale of capacity, a matching type holds everything the other holds, and a type that does not match loses the largest content |
| ColumnContents.AlignedKeepsContents | proto2mysql.go:1614-1622 | The type an ALTER writes loses nothing the column held |
| ColumnContents.SpellingsMatch | proto2mysql.go:608-629 | The spellings BOOL, INTEGER and TIMESTAMP match their types both ways |
| ColumnContents.NamesAreNotCapacities | proto2mysql.go:656-661 | Two pairs of types whose names match while contents are lost |
| ColumnContents.MatchingColumnHolds | proto2mysql.go:544-588 | A column that matches its field's declared type holds everything the field sends, given a key's shape and no fixed decimals |
| ColumnContents.PlannedColumnsHold | proto2mysql.go:1376-1529 | After an accepted plan every field's column holds everything the field sends, unless it is a fraction kept with fixed decimals |
| ColumnContents.PartBytesAreContents | keycolumns.go:1039-1068 | The size of a column in a key is that of its largest content |
| ColumnPlanner.IndexByNumber | proto2mysql.go:1392-1410 | Two columns with one number are refused, otherwise the index finds exactly the column of each number |
| ColumnPlanner.AlignField | proto2mysql.go:1414-1519 | One turn of the loop: the clause or refusal of a field and the column it claims |
| ColumnPlanner.BuildColumnClauses | proto2mysql.go:1376-1529 | The loop over `remaining` gives the functional plan, errors included |
| ColumnPlanner.ClaimsAreInjective | proto2mysql.go:1414-1513 | No column is claimed twice, and only by name or by number |
| AlterTable.RefusalMeans | proto2mysql.go:1427-1490 | A field is refused iff its name is ambiguous or the column it claims is for other content, and which error it is |
| AlterTable.AcceptedIff | proto2mysql.go:1413-1519 | A plan is accepted iff no field is refused, otherwise the error is that of the first refused field |
| AlterTable.FieldFacts | proto2mysql.go:1425-1519 | What an accepted plan does with a field: nothing, ADD, MODIFY or CHANGE, exactly by its claim |
| AlterTable.LegalIffNamesDistinct | proto2mysql.go:1376-1529 | MySQL accepts the clauses of an accepted plan iff the declared names are distinct up to case |
| AlterTable.FinalColumnFits | proto2mysql.go:1453-1511 | The column a field ends with has its name and number and holds both the declared and the previous type |
| AlterTable.FieldApplied | proto2mysql.go:1376-1529 | After the statement every field has exactly the column it settled on |
| AlterTable.NothingElse | proto2mysql.go:1376-1529 | Afterwards there are only the fields' columns and the unclaimed ones |
| AlterTable.NothingIsLost | proto2mysql.go:1376-1529 | Every original column is still there under its old or new name, no two share one, none is narrower, unclaimed ones are unchanged |
| SchemaConvergence.PlanConverges | proto2mysql.go:1392-1519 | Planning again after the plan ran asks for nothing, or is refused, exactly by whether an unclaimed column carries a declared number |
| SchemaConvergence.DuplicateNumbersAfter | proto2mysql.go:1398-1410 | The resulting table has a duplicate number iff such a column exists |
| SchemaConvergence.CleanCommentsConverge | proto2mysql.go:1382-1392 | If no other column carries the number of a field that has a namesake, there is none |
| SchemaConvergence.CopiedCommentDoesNotConverge | proto2mysql.go:1384-1391 | A copied column that keeps the comment while the original has none: accepted once, refused afterwards |
| SchemaSync.NeverNarrower | proto2mysql.go:625-661 | Over any run of any versions, whatever they declare, each physical column, followed through its renames, is at every later point at least as wide |
| SchemaSync.FollowedApart | proto2mysql.go:1376-1529 | Two columns followed through a run never become one |
| SchemaSync.FollowedOn | proto2mysql.go:1376-1529 | Following a column over two stretches of a run is following it over both |
| SchemaSync.ColumnsNeverDrop | proto2mysql.go:1376-1529 | The number of columns never decreases over a run |
| SchemaSync.DdlIsProgress | proto2mysql.go:1376-1529 | When the versions agree on identities, a sync with column DDL places or widens some goal for good |
| SchemaSync.NoFlapping | proto2mysql.go:625-661 | Then the number of syncs that send column DDL is at most twice the number of goals of all versions |
| SchemaSync.ExpandOnlyIff | proto2mysql.go:1555-1568 | ExpandOnly accepts exactly the plans that redefine no online column |
| SchemaSync.ExpandOnlyTouchesNothing | proto2mysql.go:1555-1568 | Under ExpandOnly an accepted sync leaves every existing column as it is |
| SchemaFlapping.SyncKeepsKnown | proto2mysql.go:1376-1529 | Among versions that name every number once, a sync on a table they made is never refused and leaves such a table |
| SchemaFlapping.OneNameTwoNumbersFlaps | proto2mysql.go:1429-1468 | For versions of any width with one name under two numbers and for every n, a run from the empty table with at least n syncs that send column DDL |
| SchemaFlapping.RestsIff | proto2mysql.go:1376-1529 | Among versions that name every number once, column DDL is bounded, from every table and over every run, iff every name has one number |
| SchemaFlapping.OneColumnNeverRests | proto2mysql.go:1429-1468 | Two one-column versions that keep the promise and never come to rest |
| SchemaPlan.ValidateSchemaDrift | proto2mysql.go:2024-2146 | Drift is reported iff a name is ambiguous or some examined column (the namesake, else the smallest name with the number), declared index or primary key differs |
| SchemaPlan.MissingIndexClauses | proto2mysql.go:2271-2305 | Exactly the declared indexes whose names are not online, in order |
| SchemaPlan.PlanSchemaAlignment | proto2mysql.go:2347-2419 | The planner's loops give the functional plan: clauses, drift, the split into two statements, ExpandOnly |
| PlanLegality.LeadsAfterClause | proto2mysql.go:903-925 | Which keys lead a redefined column after a statement |
| PlanLegality.AutoLegalWith | proto2mysql.go:2369-2389 | A statement that defines an auto-increment column is legal iff a key leads it afterwards and no other one is left |
| TwoStatements.FirstPartLegal | proto2mysql.go:2377-2388 | Holding one clause back is legal iff no other clause writes the name of the column it redefines |
| TwoStatements.SplitIsWhole | proto2mysql.go:2307-2315 | The two statements together leave the columns one ALTER would have left |
| PlanExecution.KeysForFacts | proto2mysql.go:2399-2411 | Every missing key goes to exactly one statement, to the second iff it mentions a moved column |
| PlanExecution.PlanIsAuto | proto2mysql.go:251-256 | Only the auto-increment field's clause defines an auto-increment column |
| PlanRunsExactly.FirstRuns | proto2mysql.go:2376-2411 | The first statement runs iff the moved clause's column is in nobody's way; its indexes lie over columns that exist |
| PlanRunsExactly.SecondRuns | proto2mysql.go:2376-2411 | After it the second statement has all its columns and fresh index names, and only the auto-increment rule is left to meet |
| PlanRunsExactly.SplitKeepsColumns | proto2mysql.go:2307-2315 | Whatever moved, a plan that runs leaves the columns of the whole plan |
| AutoIncrementPlan.PlanRunsIff | proto2mysql.go:2347-2428 | Both statements of an accepted plan run iff the auto-increment field settles: led by a key in time, no orphaned auto-increment column, no name in the way |
| AutoIncrementPlan.OrdinaryPlanRuns | proto2mysql.go:2347-2428 | If no earlier field's number sits on the auto-increment key's column and no auto-increment column is orphaned, every accepted plan runs |
| AutoIncrementGaps.OrphanBreaksThePlan | proto2mysql.go:2347-2419 | A concrete table on which an accepted plan adds a second auto-increment column |
| AutoIncrementGaps.RotationBreaksThePlan | proto2mysql.go:2032-2058 | A concrete table on which two renames take the key's column away and the key is added without a leading key |
| AutoIncrementGaps.WaitingBreaksThePlan | proto2mysql.go:2376-2389 | A concrete table on which only the third condition fails: the rename to the key waits for the primary key while its old name is added again |
| SchemaSettles.FinalDoesNotDrift | proto2mysql.go:2032-2093 | What a field ends up with passes the drift check |
| SchemaSettles.AttributesSettle | proto2mysql.go:2064-2092 | After an accepted plan every field's column has exactly the declared nullability, default and auto-increment, and key columns the declared base type and collation |
| SchemaSettles.KeysSettle | proto2mysql.go:2271-2305 | Afterwards every declared index is there and as declared |
| SchemaSettles.KeysAreAsDeclared | proto2mysql.go:2186-2212 | Afterwards every declared index, the unique key and the primary key are there: as unique, over the same columns in order, with a prefix exactly on TEXT and BLOB |
| SchemaSettles.AlignmentSettles | proto2mysql.go:2347-2419 | When names are kept and nothing is orphaned, an accepted plan runs and planning the whole schema again is empty (or refused, by the stray number) |
| SchemaSettles.GateIff | proto2mysql.go:2398-2417 | Drift is refused before ExpandOnly is asked; ExpandOnly then refuses exactly the plans one of whose two statements redefines an online column |
| SchemaSettles.GateHolds | proto2mysql.go:1542-1556 | The gate covers both statements: under ExpandOnly an accepted plan that runs leaves every existing column as it is |
| ShadowTable.SmallestOwner | keycolumns.go:550-562 | Among the remaining columns with the number, the smallest name, whatever the iteration order |
| ShadowTable.ShadowColumns | keycolumns.go:510-565 | The two loops over `remaining` give every field the source and definition of the two passes; refused iff a name is ambiguous |
| ShadowTable.ShadowIsInjective | keycolumns.go:502-506 | No two fields are copied from one online column |
| ShadowMatch.ShadowIsNamesFirst | keycolumns.go:535-563 | A field takes its namesake, else the column with its number unless that is some field's namesake |
| ShadowMatch.MatchersAgreeIff | keycolumns.go:496-565 | The copy reads the columns the planner would align iff there is no bad pair |
| ShadowMatch.BadPairDiffers | proto2mysql.go:1412-1514 | On a bad pair the planner gives the earlier field the later one's column, the copy gives it none |
| ShadowMatch.RenamedDataGoesToTheNewField | keycolumns.go:502-506 | The comment's own example as a bad pair: the planner renames the column, the copy fills the new field with the old data |
| ShadowCopy.ShadowTypeFits | keycolumns.go:567-588 | A shadow column has the declared type or the online one, holds what its field writes and, unless rebuilt as a key, all its online column held, comparing the same way |
| ShadowCopy.CopyColumns | keycolumns.go:612-646 | Targets, sources, NOT NULL gaps and orphans, column by column |
| ShadowCopy.CopyPartitions | keycolumns.go:612-646 | Every online column is read exactly once or is an orphan, no column is written twice, and NULL reaches a NOT NULL column only through COALESCE or a listed gap |
| ShadowCopy.RowsArriveUnchanged | keycolumns.go:622-640 | In a copied row a field not rebuilt as a key gets exactly its column's cell, NULL included, a rebuilt one gets '' for NULL and the cell otherwise, a field without a column its default; the listed gaps are exactly the nullable columns that go uncoalesced into NOT NULL |
| IndexBudget.DeclaredPartBytes | keycolumns.go:1039-1068 | On declared types the shadow size equals the registered size |
| IndexBudget.ShadowPlan.ShrinkKeysToIndexBudget | keycolumns.go:812-857 | The nested loops with their break leave the columns of the functional shrink and return the changed names in field order |
| IndexBudget.ShrinkKeysNarrows | keycolumns.go:829-845 | Only key columns change, and only to their declared definition |
| IndexBudget.KeyBytesShrink | keycolumns.go:862-880 | Shrinking makes no key larger and none unknown |
| IndexBudget.BudgetHolds | keycolumns.go:801-857 | On any columns, every declared key whose size is known is afterwards within 3072 bytes or takes exactly its registered bytes plus the widenings kept on numeric columns; keys of unknown size are left alone |
| RebuildBudget.KeptKeyHasShape | keycolumns.go:510-565 | In the rebuild the program plans, a key column that is kept already has the shape of a key |
| RebuildBudget.RebuildFits | keycolumns.go:801-880 | In that rebuild every declared key has a known size, and after the shrinking is within the limit or takes exactly its registered bytes plus the widenings kept on numeric columns; without those every declared key fits |
| IndexBudget.LastStepWasNeeded | keycolumns.go:829-834 | Before the last column of a key was taken back, the key was still over the limit |
| IndexBudget.ShrinksInOrder | keycolumns.go:830-845 | The columns of a key are taken back in order |
| IndexBudget.FittingKeysStay | keycolumns.go:829-834 | When every key fits nothing is taken back |
| IndexBudget.RebuiltColumnsFit | keycolumns.go:574-588 | The columns of a rebuild satisfy what the bound asks for |
| CacheEnvelope.Uvarint | cache.go:237-240 | The loop reads exactly the varints that fit 64 bits and ten bytes, and what it returns fits them |
| CacheEnvelope.VarintLayout | cache.go:220-223 | The bytes of a varint: groups of seven bits, least significant first, continued by the top bit, and none more than needed |
| CacheEnvelope.EntryLayout | cache.go:191-205 | An entry starts with P2MC and version 1, then the count, the numbers and the payload |
| CacheEnvelope.PutThenGet | cache.go:220-223 | A written varint is read back with its length |
| CacheEnvelope.EncodeCacheEntry | cache.go:209-225 | The bytes are the entry of the fields in ascending order, whatever the set's iteration order |
| CacheEnvelope.DecodeCacheEntry | cache.go:228-267 | The moving position stays in bounds and the answer is the decoder's |
| CacheEnvelope.RoundTripIff | cache.go:209-267 | Decoding gives back fields and payload for every valid set of at most 65536 numbers, and refuses every other set |
| CacheEnvelope.DecodeIsSound | cache.go:228-267 | On arbitrary bytes an accepted entry holds exactly as many numbers as it announces, within the limit, valid and strictly increasing in the data, and the payload is the end of the data |
| CacheEnvelope.MissingFieldNumbers | cache.go:270-279 | The reader's fields the writer lacked, ascending; empty iff the writer knew them all |
| CacheRuns.CacheGetProto | cache.go:282-322 | A hit hands over the stored message, every miss leaves the caller's message alone |
| CacheRuns.CacheSetProto | cache.go:325-340 | Stores an entry with the writer's own fields |
| CacheRuns.HitsAreWholeRows | cache.go:171-194 | After any run of mixed versions a reader hits iff the last fill still stands and its writer knew all the reader's fields, and then gets that writer's row on all its fields |
| CacheKeys.EscapeCacheKeyPart | cache.go:152-169 | The loop with its fast path is the escape function |
| CacheKeys.CacheKeyFor | cache.go:132-148 | The builder's result is the key function |
| CacheKeys.SpecialsArePercentEncoded | cache.go:160-165 | The two special characters are percent-encoded |
| CacheKeys.PlainKeys | cache.go:108-148 | Without special characters a key is pb and its parts joined by colons |
| CacheKeys.UnchangedIff | cache.go:150-155 | A part is encoded as itself iff it has neither special character |
| CacheKeys.KeysAreInjective | cache.go:108-148 | Two keys are equal iff table and primary-key tuple are, for any arity and any strings |
| CacheInvalidation.DB.WithContext | proto2mysql.go:378-396 | A derived handle shares the transaction's owner |
| CacheInvalidation.DB.InvalidateMessages | cache.go:356-379 | Keys are recorded at the owner inside a transaction and deleted at once outside |
| CacheInvalidation.DB.InvalidateCache | cache.go:79-98 | The same by hand; one message without a key and nothing is dropped |
| CacheInvalidation.RunInTransaction | proto2mysql.go:417-439 | Over any tree of handles: until the commit only outside writes delete keys, a rollback deletes none of the transaction's, a commit deletes all recorded ones in order |
| CacheInvalidation.RecordedMeans | cache.go:356-379 | A key is among them iff some handle recorded it |
| CacheInvalidation.AsideMeans | cache.go:356-379 | A key is deleted at once iff some write outside the transaction had it |
| AtomicFiles.StageFile | tools/proto2sql/cmd/proto2sql/main.go:328-354 | A complete temporary file or none; nothing else changes in any state on the way, and none is left after one failure |
| AtomicFiles.BackupTarget | tools/proto2sql/cmd/proto2sql/main.go:276-292 | The target moves to a new name in one step or stays, and no placeholder is left after one failure |
| AtomicFiles.Batch.Rollback | tools/proto2sql/cmd/proto2sql/main.go:294-319 | A rollback without errors restores every target; with errors every original is still at its target or its backup |
| AtomicFiles.Batch.CleanBackups | tools/proto2sql/cmd/proto2sql/main.go:253-273 | After the commit point only backups go, and a clean run leaves no temporary file |
| AtomicFiles.WriteFilesAtomic | tools/proto2sql/cmd/proto2sql/main.go:209-274 | Under every pattern of failures: committed means all targets are new and (when clean) nothing else changed, a complete rollback means all targets are as before, originals are safe in every state before the commit point; without failures it commits, an incomplete rollback takes at least two failures, every temporary file left behind is charged to a failure of its own, and a single failure before the commit point leaves the file system as it was |
| AtomicFiles.Batch.Discard | tools/proto2sql/cmd/proto2sql/main.go:214-218 | The deferred removal leaves no staged file whose removal has not failed |
| AtomicFiles.FailureIsSafe | tools/proto2sql/cmd/proto2sql/main.go:214-218 | The deferred removal of staged files endangers nothing a rollback achieved |
| AtomicFiles.CommitHolds | tools/proto2sql/cmd/proto2sql/main.go:253-273 | Nor anything a commit wrote |

## Left out

- Drivers, connection pools, contexts, timeouts, logging and the GORM backend: I/O around the modelled flow.
- SQL text, escaping and quoting: conditions and clauses are datatypes; argument positions are kept where alignment is the point.
- Statement errors other than 1062, in both saves: one reply `Failed` stands for all of them, with the statement executed or not; after one the caller knows nothing of the last statement.
- Auto-assigned primary keys on INSERT, value serialization and key-length checks of messages: a plan starts from one serialized value per field.
- Index and primary-key drift in runs of syncs: such a refusal is one of the syncs that change nothing; column drift is modelled there.
- The advisory lock itself: a sync is one step; a second ALTER failing after the first has run is modelled only as a plan that does not run.
- Type strings: a column type is a parsed body (base, length, decimals, unsigned) and attributes; the text-level search for a column name in an index clause is a search of its columns.
- Incomplete column metadata: every online column has all its attributes.
- The message of a legacy key column: the refusal is modelled, its text and its in-place ALTER variant are not; indexes of the affected columns count as drift or not without changing the refusal.
- Index types, visibility and the undeclared indexes a rebuild carries over: only declared keys are modelled.
- Unicode case folding: names fold ASCII letters, so two names that fold alike beyond ASCII are distinct here.
- TiDB options, table creation and table comments: no part of the modelled plans.
- Protobuf serialization inside a cache entry: a parameter that unmarshals what it marshals.
- Cache failures and expiry times: a deletion request is what counts, and expiry is a deletion.
- The cache-aside race between reading a row and filling the cache: the code leaves it to the expiry time.
- The handle's other settings copied by `WithContext` and `RunInTransaction`: only cache, transaction and owner are modelled.
- Two outputs with the same path in one file batch: targets are distinct, and crashes in the middle of an operation are not failures of it.
- Directories, permissions and partial renames: a rename is one step of the file system.

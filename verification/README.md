# Verified model of the LRNG's entropy accounting and seeding

This project models the core of the Linux Random Number Generator: how entropy is counted, harvested, capped and
returned, how DRNGs are seeded and kept seeded, the SP800-90B health tests, and the self-contained algorithms around
them (ChaCha20 DRNG, LFSR conditioner, bounded draw, slot packing, Jitter RNG buffer). Everything is checked by the
Dafny verifier alone; nothing is executed.

State that the C code changes in place is a class here, and every method is proved against a specification function.
The claims over whole runs are lemmas about those functions or about step machines whose steps are the atomic
operations of the code. Machine integers are `u32` values with explicit wrap-around (`Words.dfy`).

| File | What it models |
|---|---|
| `Words.dfy`, `Conversion.dfy` | 32-bit arithmetic; conversion between bits of entropy and events |
| `EntropyLedger.dfy` | per-CPU event counters of the interrupt and scheduler sources as a concurrent step machine |
| `EventAccounting.dfy` | where every event of that machine goes |
| `TimerSource.dfy` | the code of these sources run to completion: harvest loop, estimator, hash switch, reset |
| `AuxPool.dfy` | the auxiliary pool: insertion, extraction with put-back, hash switch, explicit sets |
| `SeedBuffer.dfy` | filling the seed buffer from any set of sources |
| `DrngManager.dfy` | one DRNG: request counters, injection, the loop of emergency seeding |
| `PredictionResistance.dfy` | the prediction-resistance DRNG with any number of concurrent callers |
| `SeedLevels.dfy` | seed levels of the whole LRNG, flag for all nodes, seeding threshold |
| `Health.dfy` | stuck test, RCT, APT, startup gate and failure handling |
| `ChaCha20Drng.dfy` | ChaCha20 DRNG over an abstract block function (section 2.3 of RFC 7539) |
| `Lfsr.dfy` | the LFSR conditioner |
| `BoundedDraw.dfy` | batched random words and the unbiased draw below a bound |
| `SlotPacking.dfy`, `IrqArray.dfy` | 8-bit slots in 32-bit words; the interrupt array and its compression |
| `JitterBuffer.dfy` | the four-state slot protocol of the Jitter RNG buffer |

## Where the code differs from what one would expect

- The all-or-nothing reseed fails for event rates whose 32-bit conversion overflows. `SeedBuffer.AllOrNothingExactly` is
  the exact condition for a kernel's set of sources: with F the level of the fast sources together, F reaches 128 bits, or
  for every timer source its counters can count nothing, or F plus what it delivers at most reaches 128 bits, or it is
  never estimated above that. `SeedBuffer.OverflowingRateFallsShort` and `SeedBuffer.AuxiliaryPoolOpensTheGate` are
  concrete cases.
- The flag that stands for a full seeding is cleared after the mutex of the prediction-resistance DRNG was released
  (lrng_drng_mgr.c:536-547). Output stays within the collected entropy in all runs if and only if one full seeding pays
  for one round of every caller (`PredictionResistance.PredictionResistanceExactly`), which for the strengths of the code
  means a single caller. `PredictionResistance.OutputFromBoot` bounds the output by the number of overlapping rounds.
- The emergency seeding ends if and only if some round seeds the DRNG fully or has too few deliverers
  (`DrngManager.EmergencySeedingEndsExactly`): a DRNG that refuses every injection keeps it going while sources deliver.
- The comment in lrng_set_operational says that the LRNG is operational if the initial DRNG is fully seeded
  (lrng_es_mgr.c:304-309). A run keeps to that if and only if every operation that raises the level finds the initial DRNG
  fully seeded or makes it so (`SeedLevels.OperationalIsBackedExactly`). Seeding another DRNG, an injection that the
  initial DRNG refuses, and raising the level from what the sources hold break it
  (`SeedLevels.OperationalWithoutInitialDrng`).
- A permanent APT failure restarts the window before the trigger of the same call is decremented, so that window has
  511 time stamps (`Health.AptCountIsMatches`).
- A startup failure resets the block count but does not restart the window, so an open gate guarantees 512 clean time
  stamps (`Health.StartupGate`) and 1024 if and only if the last failing call left both blocks and a whole window
  (`Health.Guarantees1024Exactly`). `Health.GateExactly` says when the gate opens after a failure, and
  `Health.OpenGateWithRecentFailure` is a run in which it opens with a failure among the last 1024.
- The raw counter of the auxiliary pool may exceed the digest, after a switch to a smaller hash or when it is set during
  an extraction; `AuxPool.CounterWithinDigestExactly` says when it does not. What is reported and returned stays capped.
- A word inserted directly after a slot into the interrupt array goes over that slot. For slots and words in any order a
  byte is hashed before it is overwritten if and only if it is not that of a slot which a word follows directly and which
  does not trigger the compression itself (`IrqArray.HashedExactly`). Without a high-resolution timer that is the order of
  every interrupt once the GCD is known; with one, the word of every input event goes over the slot before it
  (lrng_interface_random_kernel.c:125-137, with continuous compression).

## Model

| member | source | states |
|---|---|---|
| Conversion.EntropyToData | lrng_definitions.h:145-149 | the events never stand for more than the bits they were derived from, even when the 32-bit product wraps |
| Conversion.DataToEntropy | lrng_definitions.h:152-156 | the bits never exceed what the events pay for, even when the 32-bit product wraps |
| Conversion.ReduceByOsr | lrng_drng_mgr.h:79-84 | the oversampling discount never adds entropy |
| Conversion.ConversionsAreQuotients | lrng_definitions.h:145-156 | where the 32-bit products do not wrap, both conversions give the most that is paid for |
| Conversion.ConversionRoundTrip | lrng_definitions.h:145-156 | asking for the events of some bits and crediting them gives the bits back, up to one |
| EntropyLedger.Step | lrng_es_irq.c:256-322 | one atomic operation of harvests, hash switches, resets and healthy events on the per-CPU counters |
| EntropyLedger.TakeKeepsInv | lrng_es_irq.c:298-321 | the exchange to zero with its caps, or a failing hash call, never creates events |
| EntropyLedger.CreditBounds | lrng_es_irq.c:373-376 | the credit is paid for by the kept events and never exceeds the capped request |
| EntropyLedger.StepKeepsInv | lrng_es_irq.c:382-421 | every atomic operation keeps the rate-weighted ledger balanced, whatever else is under way |
| EntropyLedger.EntropyIsConserved | lrng_es_irq.c:341-448 | in every interleaving and for every rate, rate times all bits delivered plus 256 times the events still held is at most 256 times the healthy events; no delivery exceeds its request |
| EventAccounting.StepIsAccountedFor | lrng_es_irq.c:256-322 | every operation moves, spends, or loses in a named way exactly the events that it takes |
| EventAccounting.EventsAreAccountedFor | lrng_es_irq.c:341-448 | in every interleaving, events held plus events turned into bits plus events lost (reset, above a cap, failed hash call, wrapped sum) equal the events at the start plus the healthy ones |
| EventAccounting.FoundExactly | lrng_es_irq.c:298-306 | a visit counts the most events that counter, digest and, where it is a limit, array allow |
| EventAccounting.RequestIsMet | lrng_es_irq.c:373-376 | the events asked for make up for the discount: kept in full they are credited as requested, up to a bit |
| EventAccounting.CreditExactly | lrng_es_irq.c:427-430 | the credit plus the discount is the most that the kept events pay for |
| TimerSource.InitialRate | lrng_es_irq.c:118-132 | the rate in force is never below the built-in and the requested one, whatever the oversampling product wraps to; it is one of them, or ten times that without a high-resolution timer |
| TimerSource.VisitCpu | lrng_es_irq.c:382-421 | one iteration of the harvest loop |
| TimerSource.HarvestFrom | lrng_es_irq.c:382-421 | the harvest loop from a CPU on, abandoned at a failing hash call |
| TimerSource.Source.constructor | lrng_es_irq.c:48 | all counters start at zero |
| TimerSource.Source.HealthyEvent | lrng_es_irq.c:627-634 | exactly one counter grows by one, mod 2^32 |
| TimerSource.Source.Reset | lrng_es_irq.c:141-150 | the counters of the online CPUs become zero, the others stay |
| TimerSource.Source.AvailEntropy | lrng_es_irq.c:169-198 | the estimator loop computes the capped sum, and zero while the startup test is incomplete |
| TimerSource.Source.PoolHash | lrng_es_irq.c:341-430 | the collector loop is the harvest function, counters and credited bits, with every failure path |
| TimerSource.Source.SwitchHash | lrng_es_irq.c:222-274 | the counters passed are capped to what the old digest could hold; the first failing CPU ends the switch |
| TimerSource.SequentialHarvestIsARun | lrng_es_irq.c:341-448 | an undisturbed harvest is a run of the concurrent ledger machine |
| TimerSource.ScriptHarvests | lrng_es_irq.c:382-421 | the loop from any CPU on is the sequence of its atomic operations |
| TimerSource.HealthyVisit | lrng_es_irq.c:298-306 | a visit counts the capped counter, keeps what fits the request and puts the rest back |
| TimerSource.VisitCounts | lrng_es_irq.c:412-418 | one visit moves events between counter and collection without losing a countable one |
| TimerSource.HarvestFrame | lrng_es_irq.c:387-389 | a harvest changes neither CPUs it has passed nor offline ones |
| TimerSource.HarvestCollects | lrng_es_irq.c:412-418 | a quiescent harvest keeps the smaller of request and countable events and leaves the rest in the counters |
| TimerSource.EstimatorEqualsCollector | lrng_es_irq.c:169-198 | without interference the collector credits exactly min(credit of the request, estimate), and collected plus left-over events are the sum of the capped counters |
| AuxPool.Extract | lrng_es_aux.c:253-264 | collected plus put back is min(digest, previous counter) |
| AuxPool.Pool.constructor | lrng_es_aux.c:35-40 | the pool starts empty and uninitialised |
| AuxPool.Pool.AvailEntropy | lrng_es_aux.c:45-53 | the estimate is capped to the digest and discounted |
| AuxPool.Pool.SetEntropy | lrng_es_aux.c:97-100 | the counter is overwritten |
| AuxPool.Pool.SetDigestSize | lrng_es_aux.c:56-78 | the counter is capped to the old digest and not to the new one |
| AuxPool.Pool.Insert | lrng_es_aux.c:157-196 | credit limited to the buffer, counter capped to the digest, nothing credited when a hash call fails |
| AuxPool.Pool.GetPool | lrng_es_aux.c:223-293 | extraction with put-back; a failing hash loses the collected bits but returns nothing |
| AuxPool.Pool.GetBacktrack | lrng_es_aux.c:295-313 | the seed buffer is mixed back in without credit, also into an uninitialised pool |
| AuxPool.Step | lrng_es_aux.c:56-78 | one counter access of insertion, extraction, hash switch or explicit set |
| AuxPool.StepKeepsInv | lrng_es_aux.c:157-293 | every counter access keeps returned, held and stored bits within the credited ones |
| AuxPool.AuxEntropyIsConserved | lrng_es_aux.c:157-293 | over any run the entropy returned is covered by the entropy credited; each return is within request and digest |
| AuxPool.StepWithinDigest | lrng_es_aux.c:56-78 | a counter access leaves the raw counter within the digest if and only if a set value fits, or what is put back fits on top of what came in |
| AuxPool.CounterWithinDigestExactly | lrng_es_aux.c:56-293 | a run keeps the raw counter within the digest all along if and only if every access in it fits |
| AuxPool.ExtractionFitsExactly | lrng_es_aux.c:253-264 | with any sets between its two accesses, an extraction ends within the digest if and only if the last set value leaves room for what it puts back |
| AuxPool.SwitchFitsExactly | lrng_es_aux.c:56-78 | with any sets in between, a hash switch ends within the new digest if and only if the last set value leaves room for what the old one held |
| AuxPool.UndisturbedRunsFit | lrng_es_aux.c:97-100 | that is so when no set comes between the two accesses of another operation or above the digest, and no switch goes below the counter |
| AuxPool.CounterMayExceedDigest | lrng_es_aux.c:72-77 | a run from boot in which a switch to a smaller hash leaves the raw counter above the digest |
| AuxPool.SetMayExceedDigest | lrng_es_aux.c:253-261 | a run in which the counter is set during an extraction and ends above the digest |
| AuxPool.ExtractionIsTwoSteps | lrng_es_aux.c:253-267 | an undisturbed extraction is the two counter accesses of the machine |
| AuxPool.InsertionAddsExactly | lrng_es_aux.c:157-196 | an undisturbed insertion adds the stated bits, at most 8 a byte of the buffer, as far as the digest has room |
| AuxPool.ReturnIsRequestOrEstimate | lrng_es_aux.c:243-267 | an extraction returns the capped request, or the estimate if that is less |
| SeedBuffer.TimerDelivers | lrng_es_irq.c:169-198 | what a quiescent timer source is estimated at and what it delivers, in terms of the events it may count |
| SeedBuffer.SumBits | lrng_es_mgr.c:265-273 | the 32-bit accumulation over the sources |
| SeedBuffer.FillSeedBuffer | lrng_es_mgr.c:491-521 | bits per source and sources afterwards, gate included |
| SeedBuffer.FastLevelIsPaid | lrng_definitions.h:135-142 | 256 times the level of a fast source is at most rate times request, and the level is the most of that within the request unless the product wraps |
| SeedBuffer.FillingIsPaid | lrng_es_mgr.c:491-521 | no source is ever credited more than it pays for: a fast source with its rate, a timer source with events of its CPUs, the auxiliary pool with its counter |
| SeedBuffer.FastFillingExactly | lrng_es_mgr.c:503-514 | a fast source behind the gate is credited nothing, before it all that its rate pays for unless the product wraps |
| SeedBuffer.OneSource | lrng_es_mgr.c:503-514 | one fast source alone delivers its rate, and below 128 bits nothing in an unforced reseed of a fully seeded LRNG |
| SeedBuffer.DeliveredWithinRequest | lrng_es_mgr.c:510-514 | no source delivers more than the security strength |
| SeedBuffer.EstimateAtMost | lrng_es_irq.c:187-197 | no state of n CPUs is estimated above the conversion of min(n times cap, 2^24 - 1) events |
| SeedBuffer.SuitableRateSuffices | lrng_es_irq.c:169-198 | with a suitable rate the source delivers its estimate, or 128 bits together with the fast sources |
| SeedBuffer.UnsuitableRateFails | lrng_definitions.h:145-156 | with an unsuitable rate the given number of CPUs has a state that is estimated above what it delivers |
| SeedBuffer.KeepsItsWordExactly | lrng_es_irq.c:169-198 | a timer source of n CPUs delivers min(estimate, 128) in every state if and only if its rate suits n CPUs |
| SeedBuffer.OrdinaryRatesSuit | lrng_definitions.h:145-156 | every rate from 256 to below 2^24 suits any number of CPUs for digests above 128 bits |
| SeedBuffer.OverflowingRateFallsShort | lrng_definitions.h:145-156 | with rate 24000000 an estimate of 154 bits passes the gate and 77 bits are delivered |
| SeedBuffer.DeliversOrHelps | lrng_es_mgr.c:510-514 | a source of any kind delivers its estimate, or brings the fast sources to 128 bits |
| SeedBuffer.GateIsKept | lrng_es_mgr.c:503-514 | what passes the gate delivers at least 128 bits when the sources suit each other |
| SeedBuffer.AllOrNothing | lrng_es_mgr.c:491-521 | for any set of sources that suit each other, in any state, an unforced filling carries 128 bits or none with no source drained |
| SeedBuffer.UnsuitableBreaks | lrng_es_mgr.c:503-514 | with one unsuitable timer some content of the auxiliary pool opens the gate to a filling between 0 and 128 bits |
| SeedBuffer.AllOrNothingExactly | lrng_es_mgr.c:491-521 | with the auxiliary pool, any fast and any timer sources and given CPU counts, all-or-nothing holds in every state if and only if the fast sources reach 128 bits or every timer rate suits beside them |
| SeedBuffer.AuxiliaryPoolOpensTheGate | lrng_es_mgr.c:74-91 | a rate whose source alone never passes the gate still breaks all-or-nothing with 50 bits in the auxiliary pool |
| DrngManager.InjectionAgrees | lrng_drng_mgr.c:216-247 | an injection, taken or refused, keeps the bookkeeping equation |
| DrngManager.Drng.constructor | lrng_drng_mgr.h:41-50 | the counters and flags of the static initialiser |
| DrngManager.Drng.Reset | lrng_drng_mgr.c:126-136 | the counters after a reset |
| DrngManager.Drng.Inject | lrng_drng_mgr.c:216-247 | the method changes counters and flags as the specification says |
| DrngManager.Drng.SeedEs | lrng_drng_mgr.c:254-320 | the loop ends at the first round whose condition fails, with the state of exactly that many rounds |
| DrngManager.Drng.StartRound | lrng_drng_mgr.c:488-500 | decrement, test and reseed are one Round event; a round that reseeds makes the injections of the seeding loop |
| DrngManager.Drng.SetForceReseed | lrng_drng_mgr.c:433-443 | the flag is assigned, so a pending force on an unseeded DRNG is cleared |
| DrngManager.Drng.UnsetFully | lrng_es_mgr.c:278 | only the flag falls |
| DrngManager.NextKeepsInv | lrng_drng_mgr.c:216-247 | every event keeps the bookkeeping equation and the pending-reseed rule |
| DrngManager.BookkeepingHolds | lrng_drng_mgr.c:216-247 | in every run, requests since full seeding plus THRESH minus requests equals the rounds since the last full seeding or reset (THRESH - 1 more after a reset) mod 2^32, and a fully seeded DRNG has requests left or a pending reseed |
| DrngManager.BookkeepingStarts | lrng_drng_mgr.c:126-136 | the initial and the reset state satisfy it |
| DrngManager.CheckLimitsRounds | lrng_drng_mgr.c:484-486 | a DRNG that passes the check while fully seeded made at most limit + THRESH - 1 rounds |
| DrngManager.AttemptComesAtThreshold | lrng_drng_mgr.c:450-456 | unexpired and unforced rounds attempt a reseed exactly when the requests are used up |
| DrngManager.LastInjectionDecides | lrng_drng_mgr.c:221-240 | after a seeding a reseed is pending exactly if its last injection was refused; a taken one fills the request counter |
| DrngManager.FullInjectionDecides | lrng_drng_mgr.c:242-246 | after a seeding the DRNG is fully seeded exactly if it was, or took an injection that counts as full |
| DrngManager.SeedingLasts | lrng_drng_mgr.c:450-456 | whatever the flags were before, after a taken injection the next 2^20 - 1 unexpired rounds attempt no reseed and the one after them does |
| DrngManager.ResetReseedsNext | lrng_drng_mgr.c:126-136 | a reset leaves no reseed pending, but the next round attempts one |
| DrngManager.FlagsExactly | lrng_drng_mgr.c:216-247 | in every run a reseed is pending exactly if a refused injection, a locked pool or a forced reseed of a fully seeded DRNG (or the initial state) came after every taken injection, reset and forced reseed of one that is not; and it is fully seeded exactly if a taken full injection came after every reset and unset |
| DrngManager.SeedRound | lrng_drng_mgr.c:266-296 | one round of the seeding loop |
| DrngManager.RoundsAreInjections | lrng_drng_mgr.c:266-315 | the loop changes the counters as the list of its injections does |
| DrngManager.ReachesTwice | lrng_es_mgr.c:253-259 | the NTG.1 count reaches two exactly if two different sources reach the level |
| DrngManager.ShortfallShrinks | lrng_drng_mgr.c:281-284 | with more deliverers than satisfied sources the missing bits get fewer |
| DrngManager.SumsDecide | lrng_es_mgr.c:246-262 | on exact sums the rule holds if and only if two sources delivered 240 bits each, or all together the requested bits |
| DrngManager.ProgressStep | lrng_drng_mgr.c:266-315 | a round makes the DRNG fully seeded exactly if enough was delivered in all; otherwise fewer bits are missing than before |
| DrngManager.EmergencySeedingEnds | lrng_drng_mgr.c:266-315 | with successful injections the loop ends within one round more than bits are missing; it ends fully seeded exactly if enough was delivered, else a forced seeding had too few deliverers in its last round |
| DrngManager.FullyAfterExactly | lrng_drng_mgr.c:266-296 | after any rounds the DRNG is fully seeded if and only if it took an injection when the sums met the rule |
| DrngManager.StopsExactly | lrng_drng_mgr.c:314-315 | the loop condition fails after a round if and only if the DRNG was fully seeded by then or too few sources delivered in it |
| DrngManager.EmergencySeedingEndsExactly | lrng_drng_mgr.c:266-315 | whichever injections are taken, the loop ends if and only if some round seeds the DRNG fully or has too few deliverers; while sources keep delivering, if and only if an injection is taken after enough was delivered |
| DrngManager.FailingInjectionsNeverEnd | lrng_drng_mgr.c:314-315 | so with refused injections it never ends while enough sources deliver |
| DrngManager.OtherwiseOneRound | lrng_drng_mgr.c:314-315 | unforced, disabled or already satisfied seedings inject once |
| DrngManager.SumsAreLowerBounds | lrng_drng_mgr.c:278-284 | wrapped sums never exceed the entropy that was really delivered |
| DrngManager.FullySeededIsEarned | lrng_es_mgr.c:246-263 | whenever a seeding makes a DRNG fully seeded, at least the security strength was delivered, in every mode |
| PredictionResistance.Todo | lrng_drng_mgr.c:489-538 | a round asks for at most the strength, and while unseeded for at most the collected entropy |
| PredictionResistance.TodoIsLargest | lrng_drng_mgr.c:489-531 | a round asks for the most that request, page, strength and collected entropy allow |
| PredictionResistance.Next | lrng_drng_mgr.c:488-551 | the steps of concurrent callers, with clearing outside the mutex |
| PredictionResistance.SeedingIsSound | lrng_drng_mgr.c:519-520 | the seeding loop reports no more than was delivered and reaches fully seeded only with the strength |
| PredictionResistance.StepIsPaid | lrng_drng_mgr.c:502-551 | every step keeps output within collected entropy plus the overlapping rounds; a set flag nobody clears stands for unused entropy |
| PredictionResistance.OutputFromBoot | lrng_drng_mgr.c:502-551 | in every run from boot, 8 times the bytes is at most the collected bits plus strength times the overlapping rounds |
| PredictionResistance.PredictionResistanceHolds | lrng_drng_mgr.c:502-551 | without overlapping rounds, 8 times the bytes produced is at most the bits collected |
| PredictionResistance.SingleCallerIsUndisturbed | lrng_drng_mgr.c:502-551 | one caller never overlaps itself |
| PredictionResistance.StepIsCovered | lrng_drng_mgr.c:502-551 | if a full seeding pays one round of every caller, every step keeps output covered by collected entropy |
| PredictionResistance.BoundIsAttained | lrng_drng_mgr.c:502-551 | for every strength and number of callers some run shares one full seeding among all of them |
| PredictionResistance.PredictionResistanceExactly | lrng_drng_mgr.c:502-551 | 8 times the bytes is at most the bits collected in all runs if and only if one full seeding pays for one round of every caller |
| PredictionResistance.OnlySingleCallersAreSafe | lrng_drng_mgr.c:536-547 | for the strengths of the code that is the case if and only if there is at most one caller or the strength is below a byte |
| PredictionResistance.OverlapBreaksPredictionResistance | lrng_drng_mgr.c:536-547 | a run of two callers with 512 bits of output for 256 collected |
| PredictionResistance.FewBitsEndTheRequest | lrng_drng_mgr.c:523-543 | less than a byte of entropy ends the call without output |
| PredictionResistance.FullyExactly | lrng_drng_mgr.c:536-547 | a caller finds the flag set exactly if a full seeding came after every clearing |
| PredictionResistance.PrDrng.constructor | lrng_drng_mgr.c:75-79 | nothing collected, nothing produced, not seeded |
| PredictionResistance.PrDrng.Round | lrng_drng_mgr.c:502-538 | seeding and generating under the mutex, with its entropy balance |
| PredictionResistance.PrDrng.Get | lrng_drng_mgr.c:470-555 | the loop of one caller is a run of the machine and returns the bytes it produced, all that were asked for if seedings give a byte or more and the DRNG returns what it is asked for; its output is paid for by what it collected and a flag it found |
| SeedLevels.Next | lrng_es_mgr.c:165-191 | the steps of the seed levels: seeding rounds, unset, all seeded, reset |
| SeedLevels.InitOpsKeepsInv | lrng_es_mgr.c:346-404 | every call keeps the levels consistent and earned |
| SeedLevels.StepKeepsInv | lrng_es_mgr.c:276-300 | every operation does |
| SeedLevels.LevelsHold | lrng_es_mgr.c:165-191 | in every run operational is fully seeded, fully seeded implies minimally seeded, the flag for all nodes implies every DRNG and the PR DRNG are fully seeded, and level and threshold are those of the best seeding since the last reset |
| SeedLevels.LevelsStart | lrng_es_mgr.c:56-61 | the boot state satisfies it |
| SeedLevels.LevelsOnlyRise | lrng_es_mgr.c:346-404 | between resets the minimal level stays, and outside SP800-90C and NTG.1 mode the threshold never decreases |
| SeedLevels.LevelsStay | lrng_es_mgr.c:276-290 | without a reset and without taking back the initial DRNG, an operational LRNG stays operational and a fully seeded one fully seeded |
| SeedLevels.FlagsExactly | lrng_es_mgr.c:276-404 | in every run the LRNG is operational exactly if a call raised it after every reset and every taking back of the initial DRNG; the flag for all nodes and the flag of each DRNG are set exactly if what sets them came after all that clears them |
| SeedLevels.ThresholdOfRaised | lrng_es_mgr.c:346-404 | the threshold after a raise: what is available plus 240 in NTG.1 mode, 128 bits above the strength in SP800-90C mode until all nodes are seeded, otherwise the strength |
| SeedLevels.LevelsByBits | lrng_es_mgr.c:376-402 | from boot, the levels and the threshold for every amount of entropy up to 512 bits |
| SeedLevels.StepIsBackedExactly | lrng_es_mgr.c:302-315 | an operation keeps "operational implies the initial DRNG is fully seeded" if and only if it does not raise the level, finds the initial DRNG fully seeded, or makes it so |
| SeedLevels.OperationalIsBackedExactly | lrng_es_mgr.c:302-315 | a run keeps it all along if and only if every operation in it does |
| SeedLevels.SeedingInitialHarmsOnlyWhenRefused | lrng_drng_mgr.c:286-299 | seeding the initial DRNG breaks it exactly if the DRNG refuses the injection that raises the level |
| SeedLevels.OperationalWithoutInitialDrng | lrng_es_mgr.c:346-404 | three inputs that break it: another DRNG is seeded, the injection is refused, no DRNG is seeded at all |
| SeedLevels.Manager.constructor | lrng_es_mgr.c:56-61 | the boot state |
| SeedLevels.Manager.InitOps | lrng_es_mgr.c:346-404 | the method makes exactly the specified level transition |
| SeedLevels.Manager.UnsetFullySeeded | lrng_es_mgr.c:276-300 | the DRNG and the flag for all nodes fall; the LRNG falls only with the initial DRNG |
| SeedLevels.Manager.SeedOne | lrng_drng_mgr.c:266-307 | the rounds of one seeding are a run of the machine |
| SeedLevels.Manager.SeedWork | lrng_drng_mgr.c:354-409 | the worker is a run of the machine and sets the flag for all nodes exactly if every DRNG was fully seeded |
| SeedLevels.Manager.ResetAll | lrng_drng_mgr.c:578-608 | every level and flag falls and the threshold is the initial one |
| Health.Step | lrng_health.c:265-358 | one time stamp seen by APT and RCT |
| Health.CountersBounded | lrng_health.c:283-296 | counts stay below their permanent cutoffs and the APT count within the part of the window that passed |
| Health.FailsExactlyAtCutoff | lrng_health.c:283-356 | a call fails exactly if it brings a count to its cutoff |
| Health.RctCountIsStuckRun | lrng_health.c:328-358 | the repetition count is the length of the current stuck run, cleared by permanent failures |
| Health.StuckRunIsUnique | lrng_health.c:328-358 | that length is determined by the history |
| Health.AptCountIsMatches | lrng_health.c:242-297 | the APT count is the number of matches with the base since the window began, with the exact window and base |
| Health.StartupGate | lrng_health.c:117-171 | an open gate means no remaining blocks, at least 1025 time stamps, and no failure among the last 512 |
| Health.FailureLeaves | lrng_health.c:140-171 | a failing call leaves the gate closed, with one or two blocks and a part of the window |
| Health.GateExactly | lrng_health.c:117-171 | after the last failure the gate is open exactly from the time stamp on that ends the rest of the window and every further block |
| Health.Guarantees1024Exactly | lrng_health.c:140-159 | every gate that opens after a failure has 1024 clean time stamps behind it if and only if the failing call left both blocks and a whole window |
| Health.FullRestartExactly | lrng_health.c:176-195 | a failing call leaves both blocks and a whole window exactly if it is a permanent RCT failure, or an RCT failure in the call that ends a window or is the first |
| Health.OpenGateWithRecentFailure | lrng_health.c:140-159 | a run from boot that fails once in the first window and still opens the gate at time stamp 1025 |
| Health.GateOpensAt1025 | lrng_health.c:117-135 | without failures the gate opens exactly at time stamp 1025 |
| Health.UntestedGateIsOpen | lrng_health.c:211-220 | without requested and enabled tests the gate that a source asks is open |
| Health.OpenGateIsEarned | lrng_health.c:211-220 | with them, when it is open the tests saw at least 1025 time stamps and no failure among the last 512 |
| Health.CleanGateIsOpenFrom1025 | lrng_health.c:211-220 | if no test ever failed it is open exactly from time stamp 1025 on |
| Health.GateAfterFailureExactly | lrng_health.c:211-220 | after the last failure it is open exactly from the end of the rest of the window and every further block on |
| Health.MemoryHoldsDifferences | lrng_health.c:389-398 | the memory of the stuck test holds the differences of the last time stamps mod 2^32 |
| Health.StuckIsZeroDifference | lrng_health.c:389-404 | stuck exactly if the first, second or third difference of the last four time stamps is 0 mod 2^32 |
| Health.QuadraticsAreStuck | lrng_health.c:360-404 | a time stamp that continues the last three along any quadratic mod 2^32 is stuck, whatever came before |
| Health.Tester.constructor | lrng_health.c:53-81 | the boot state |
| Health.Tester.Disable | lrng_health.c:413-421 | without tests the gate is open |
| Health.Tester.HandlePermanentFailure | lrng_health.c:176-195 | the handler has the specified effect |
| Health.Tester.HandleFailure | lrng_health.c:197-209 | the handler distinguishes startup from runtime |
| Health.Tester.Startup | lrng_health.c:117-135 | a finished block counts down |
| Health.Tester.InsertApt | lrng_health.c:265-297 | the APT has the specified effect, and none unless requested |
| Health.Tester.InsertRct | lrng_health.c:328-358 | the RCT has the specified effect, and none unless requested |
| Health.Tester.TestStuck | lrng_health.c:389-404 | only the memory of this CPU changes |
| Health.Tester.HealthTest | lrng_health.c:428-447 | the state stays the function of the whole history; a time stamp passes exactly if it is not stuck |
| ChaCha20Drng.StreamShift | lrng_drng_chacha20.c:109-113 | the block made after k blocks is the k-th block of the keystream, across the wrap of the counter |
| ChaCha20Drng.AfterGenerate | lrng_drng_chacha20.c:101-129 | the state after generating |
| ChaCha20Drng.AfterSeed | lrng_drng_chacha20.c:67-86 | the state after seeding |
| ChaCha20Drng.Drng.Block | lrng_drng_chacha20.c:110 | one block of keystream; the counter grows by one mod 2^32 |
| ChaCha20Drng.Drng.BumpNonce | lrng_drng_chacha20.c:49-55 | the carry between the nonce words |
| ChaCha20Drng.Drng.Update | lrng_drng_chacha20.c:29-58 | rekeying from the unused words of a block or from a fresh block |
| ChaCha20Drng.Drng.Seed | lrng_drng_chacha20.c:67-86 | key, counter and nonce after seeding, and exactly which blocks were made |
| ChaCha20Drng.Drng.Generate | lrng_drng_chacha20.c:101-129 | the output is the first n bytes of consecutive keystream, the state is rekeyed from the bytes behind it, and exactly the stated blocks were made |
| ChaCha20Drng.RekeyIsDisjoint | lrng_drng_chacha20.c:115-123 | the rekeying bytes lie behind all returned bytes and inside the last block made |
| ChaCha20Drng.BlocksAreBounded | lrng_drng_chacha20.c:92-99 | one call makes at most 2^26 + 1 blocks, and the bound is reached |
| ChaCha20Drng.SeedingSplits | lrng_drng_chacha20.c:72-83 | seeding with a and then b is seeding with both whenever 32 divides the length of a |
| ChaCha20Drng.BumpIsIncrement | lrng_drng_chacha20.c:49-55 | the nonce words count updates as a 96-bit integer |
| ChaCha20Drng.RunIsChain | lrng_drng_chacha20.c:29-58 | in any run update i happens under nonce start + i mod 2^96, with fewer blocks than counters in between |
| ChaCha20Drng.NoBlockInputRepeats | lrng_drng_chacha20.c:67-129 | in any run of seed and generate calls with at most 2^96 updates, no two block calls use the same counter and nonce |
| ChaCha20Drng.RekeyIsFirstFit | lrng_drng_chacha20.c:115-123 | rekeying takes the first word-aligned bytes behind the output from which 32 bytes of the block are left |
| ChaCha20Drng.StreamIsOfCalls | lrng_drng_chacha20.c:108-120 | every byte of the output comes from the block made for the recorded counter and nonce, under the key of the start |
| ChaCha20Drng.XorTwiceRestores | lrng_drng_chacha20.c:77-78 | the same bytes XORed in twice restore the key, zeros change nothing, and the key behind the bytes stays |
| ChaCha20Drng.XorIsOneInput | lrng_drng_chacha20.c:77-78 | inputs XORed in one after the other are one XOR of both, in either order |
| ChaCha20Drng.ChunkLosesNeitherSide | lrng_drng_chacha20.c:77-82 | the rekeying block of a chunk sees different keys for different old keys, and for different chunks of one length |
| ChaCha20Drng.RekeyingIsReversible | lrng_drng_chacha20.c:37-47 | with a known keystream the key before generating is recovered from the one after it |
| ChaCha20Drng.SeedingKeepsKeysApart | lrng_drng_chacha20.c:72-83 | seed data of any length makes two different keys equal only through a collision of the rekeying |
| Lfsr.Step | addon/lfsr/lrng_lfsr.h:54-85 | absorbing one byte |
| Lfsr.TapsExactly | addon/lfsr/lrng_lfsr.h:67-84 | the new byte answers a change of one pool byte exactly if that stands at the position itself or at tap 31, 29, 25 or 24 from it; the other bytes stay |
| Lfsr.FirstByte | addon/lfsr/lrng_lfsr.h:67-84 | the first byte goes to position 13, rotated left by 3 |
| Lfsr.Conditioner.constructor | addon/lfsr/lrng_lfsr.c:39-45 | the zero context |
| Lfsr.Conditioner.AbsorbByte | addon/lfsr/lrng_lfsr.h:54-85 | the method absorbs as specified |
| Lfsr.Conditioner.Update | addon/lfsr/lrng_lfsr.c:48-58 | the loop absorbs the whole input in order |
| Lfsr.Conditioner.Final | addon/lfsr/lrng_lfsr.c:61-67 | the digest is the pool |
| Lfsr.StepIsInvertible | addon/lfsr/lrng_lfsr.h:67-84 | for a known byte a step is a bijection on contexts |
| Lfsr.AbsorbingKeepsPoolsApart | addon/lfsr/lrng_lfsr.h:67-84 | no input makes two different contexts equal |
| Lfsr.AbsorptionIsLinear | addon/lfsr/lrng_lfsr.h:67-84 | absorption is linear over GF(2) in pool and input |
| Lfsr.InputIsRecovered | addon/lfsr/lrng_lfsr.h:67-84 | an input of up to 32 bytes can be read back from the resulting pool |
| Lfsr.EveryPoolIsReached | addon/lfsr/lrng_lfsr.h:67-84 | from every context 32 bytes reach every pool |
| Lfsr.ThirtyTwoBytesAreABijection | addon/lfsr/lrng_lfsr.h:67-84 | from every context absorbing 32 bytes is a bijection from inputs to pools |
| Lfsr.NothingIsLost | addon/lfsr/lrng_lfsr.c:48-58 | two different blocks of up to 32 bytes at the same place of any stream end in different pools |
| Lfsr.ScheduleIsClosedForm | addon/lfsr/lrng_lfsr.h:67-75 | after n bytes from init the pair is (13 n mod 32, (3 n + 3 (n div 32)) mod 8) |
| Lfsr.EveryPairOnce | addon/lfsr/lrng_lfsr.h:67-75 | any 256 consecutive bytes use every pair of position and rotation exactly once |
| BoundedDraw.FirstAccepted | lrng_interface_aux.c:141-147 | the first accepted word, all before it rejected |
| BoundedDraw.Batch.constructor | lrng_interface_aux.c:66-68 | the batch starts empty |
| BoundedDraw.Batch.GetRandomU32 | lrng_interface_aux.c:70-87 | every word of the stream is delivered once and in order |
| BoundedDraw.Batch.Invalidate | lrng_interface_aux.c:182-210 | the left-over words are never delivered |
| BoundedDraw.Batch.Below | lrng_interface_aux.c:139-149 | the scaled first accepted word, below the bound, and no further word is taken |
| BoundedDraw.FastCheck | lrng_interface_aux.c:143-145 | the fast pre-check and the computed bound decide as the full test |
| BoundedDraw.HitsAreSpan | lrng_interface_aux.c:141-148 | the words that hit a value are one run of 2^32 div ceil consecutive words |
| BoundedDraw.Uniform | lrng_interface_aux.c:139-149 | every value below the bound is hit by exactly 2^32 div ceil accepted words |
| BoundedDraw.RejectedCount | lrng_interface_aux.c:144-145 | exactly 2^32 mod ceil words are drawn again |
| SlotPacking.PutSlotBytes | lrng_es_timer_common.h:61-65 | only the addressed slot changes |
| SlotPacking.PutHighBytes | lrng_selftest.c:73-78 | slots from the pointer on take the data, the lower ones stay |
| SlotPacking.LowBytes | lrng_selftest.c:80-82 | the current unit holds the lower bytes and zeros |
| SlotPacking.RingIndex | lrng_es_timer_common.h:49-59 | array index and slot of the masked pointer |
| SlotPacking.SlotStep | lrng_selftest.c:48-60 | after a slot insertion the most recent bytes stand in the ring |
| SlotPacking.WordStep | lrng_selftest.c:62-83 | after a word insertion they do, but for the slots zeroised behind the pointer |
| SlotPacking.SelfTest.constructor | lrng_selftest.c:45-46 | no byte is stored yet |
| SlotPacking.SelfTest.Insert | lrng_selftest.c:48-60 | the byte is appended and at least the most recent N - 4 bytes are intact |
| SlotPacking.SelfTest.InsertU32 | lrng_selftest.c:62-83 | slot s takes byte s of the word at any alignment, and at least the most recent N - 4 bytes are intact |
| SlotPacking.WordIsRecoverable | lrng_selftest.c:62-83 | a recent word can be read back from the array |
| IrqArray.AfterSlotIs | lrng_es_irq.c:596-617 | what a slot does to array, pointer and hash |
| IrqArray.AfterWordIs | lrng_es_irq.c:544-582 | what a word at any alignment does: the pointer wraps exactly when it leaves the lap, and then the array is hashed between the two writes |
| IrqArray.Array.constructor | lrng_es_irq.c:45-48 | an empty array |
| IrqArray.Array.Hash | lrng_es_irq.c:503-537 | the hash takes the array exactly when the pointer test says so |
| IrqArray.Array.AddSlot | lrng_es_irq.c:596-617 | the method inserts a slot as specified, in any history |
| IrqArray.Array.AddU32 | lrng_es_irq.c:544-582 | the method inserts a word as specified, in any history, with the hash between its two writes when the pointer wraps |
| IrqArray.SlotLeaves | lrng_es_irq.c:607-614 | a slot leaves the bytes of the lap behind the pointer and stores its own |
| IrqArray.WordLeaves | lrng_es_irq.c:564-578 | a word in the lap leaves the bytes behind the pointer and stores its own |
| IrqArray.HighLeaves | lrng_es_irq.c:564-574 | when the pointer wraps, the array that is hashed between the two writes of a word holds the whole lap |
| IrqArray.ByteIsKept | lrng_es_irq.c:503-617 | for slots and words in any order, every byte stands in the lap of the pointer or was hashed while it stood, unless it is of a slot that triggers no compression and that a word follows directly |
| IrqArray.HashedExactly | lrng_es_irq.c:503-617 | for slots and words in any order, once the pointer has reached the last slot of the lap of a byte it was hashed while it stood if and only if it is not of such a slot |
| IrqArray.OverwrittenByteWasHashed | lrng_es_irq.c:503-537 | in particular in runs of slots only or of words only every overwritten byte was hashed |
| IrqArray.SlotBeforeWordExactly | lrng_es_irq.c:596-617 | after any history, the byte of a slot that a word follows is hashed before it is overwritten if and only if its own insertion triggers the compression |
| IrqArray.ByteIsLost | lrng_es_irq.c:682-694 | for every array size the first slot of a fully seeded LRNG is lost to the word behind it, unhashed |
| IrqArray.CompressesExactly | lrng_es_irq.c:503-517 | the array is hashed at its last slot, and before the LRNG is fully seeded at every multiple of 32 too |
| IrqArray.BootSlotsAreHashedSoon | lrng_es_irq.c:503-537 | whatever was inserted before, 32 slots in turn of an LRNG that is not fully seeded make a new snapshot |
| JitterBuffer.Next | lrng_es_jent.c:136-215 | one atomic operation or cell access of a filler or reader |
| JitterBuffer.Boot | lrng_es_jent.c:234-243 | all slots empty |
| JitterBuffer.OneOwner | lrng_es_jent.c:138-141 | two processes never use the same slot |
| JitterBuffer.OtherProcess | lrng_es_jent.c:136-215 | no step disturbs what another process owns or has copied |
| JitterBuffer.KeepHistory | lrng_es_jent.c:150-213 | no step loses a fill or hands one out twice |
| JitterBuffer.RunKeepsInv | lrng_es_jent.c:136-215 | ownership, contents and history hold in every interleaving |
| JitterBuffer.MutualExclusion | lrng_es_jent.c:138-197 | at any time a slot has at most one user |
| JitterBuffer.DeliveriesAreFills | lrng_es_jent.c:194-213 | what a reader hands out is a published block, whole and unchanged, and no fill is handed out twice |
| JitterBuffer.NoFillIsLost | lrng_es_jent.c:150-213 | a fill that was not handed out is still in its slot |
| JitterBuffer.EmptySlotsAreZero | lrng_es_jent.c:212-215 | in every interleaving an empty slot holds zeros only |
| JitterBuffer.NextStepIsEnabled | lrng_es_jent.c:136-215 | no process is ever blocked |
| JitterBuffer.ClaimedFillIsHandedOut | lrng_es_jent.c:195-215 | a reader that finds its slot filled hands out that fill once it has made 99 steps more, whatever the others do in between |
| JitterBuffer.EmptySlotCanBeFilled | lrng_es_jent.c:136-150 | a filler that finds a slot empty can publish any block in it and goes on to the next slot |
| JitterBuffer.MonitorFillsAll | lrng_es_jent.c:130-159 | the monitor running alone fills every slot that it finds empty and leaves the others |
| JitterBuffer.ReadersGoRound | lrng_es_jent.c:187-192 | for a number of slots that is a power of two, the draws of any run claim the slots in turn from the first one on |

## Left out

- Device files, ioctl, getrandom, sysctl, proc, hw_random, VDSO, kernel crypto interfaces, wait queues and notifiers.
- Hash functions, the ChaCha20 rounds, the DRBG and other backends: hash calls appear as success or failure, the block
  function as an arbitrary function of key, counter and nonce; the data that is hashed is modelled only in `IrqArray`.
- The ChaCha20 constants and their check, and big-endian machines: the key is a buffer of bytes.
- lrng_switch.c and lrng_numa.c: a hash switch appears by its effect on counters, nodes are fixed.
- Real time: whether the reseed interval has expired is an input of each round; the time stamps of the last seeding are
  not modelled, nor is their shift against reseed storms.
- The atomic DRNG and seeding before the LRNG is available.
- The raw CPU fill loop, raw recording of events, debug and test interfaces, the GCD analysis of time stamps.
- The sysfs switch of the Jitter RNG buffer, which reinitialises slots outside the protocol, and the synchronous read
  that a reader falls back to.
- Panic on permanent health failures.
- Health.Tester.HealthTest: one call is one step; calls of several CPUs that interleave inside the shared APT and RCT
  counters are not modelled.
- TimerSource.Source.PoolHash: the retry of a hash initialisation and the digests themselves are outcomes of a visit.
- TimerSource.EstimatorEqualsCollector: holds while 256 times the counted events fit in 32 bits; `SeedBuffer` treats
  the rates for which the conversions overflow.
- SeedBuffer.FillSeedBuffer: covers the seed buffer outside SP800-90C mode, with sources that do not fail, an auxiliary
  pool that is initialised, and one digest size.
- DrngManager.BookkeepingHolds: rounds of one instance are atomic, and the equation is mod 2^32 because both counters
  wrap.
- PredictionResistance.OnlySingleCallersAreSafe: for strengths up to 32768 bits, which a round can produce;
  `PredictionResistance.PredictionResistanceExactly` has no such bound.
- DrngManager.Drng.SeedEs: the deliveries per round and the success of injections are inputs; each source is taken to
  deliver at most the 384 bits it has room for, and a caller must know a round at which the loop ends.
- PredictionResistance.PrDrng.Get: the pool lock must become free eventually, as the loop retries without bound; the
  limit on requests at its start only clears the flag, which is the Unset event of the machine.
- SeedLevels.LevelsHold: every operation is one step. The window inside lrng_reset in which a DRNG is already reset
  while the flag for all nodes still stands is not modelled.
- BoundedDraw.Batch.Below: the stream must hold an accepted word, otherwise the loop of the code does not end either.
- The scheduler source shares the model of the interrupt source (lrng_es_sched.c:117-141, 234-390); its array is not
  modelled separately.

# ASM101S, modelled and proved

ASM101S is a macro assembler for the AP-101S computer. This project models its address arithmetic, the
layout and shortening of its code, its conditional assembly, its number formats and its object modules in
Dafny, and proves what they promise. `dafny verify dfyconfig.toml` checks all of it.

One file is one component:

- `PseudoAddress.dfy`: symbols as hashed 64-bit numbers, ordinary integer arithmetic on them, and the
  recovery of symbol and offset. The reference is symbolic evaluation over linear forms.
- `Placement.dfy`: the offsets of control sections, the section an address belongs to, and what a Y constant
  links to.
- `Relaxation.dfy`, `Shortening.dfy`, `ReachTest.dfy`: laying a section out under alignment, making branches
  short, the runs of the optimizer to a fixed point, and what its reach test says in terms of distances.
- `PassLoop.dfy`, `PassPlaces.dfy`: the compile passes over labels, EQUs, literals, pools and section offsets,
  and where they put things. The reference is assembly against tables that stand still; a program is solved by
  tables that its own definitions reproduce.
- `LiteralPool.dfy`, `BitPacking.dfy`: literal pools, and constants of odd bit lengths.
- `ConditionalAssembly.dfy`, `ReadingOrder.dfy`: AIF, AGO and ACTR with the lazily built label table, and which
  cards are executed. The reference is an interpreter that goes to the line carrying a label.
  `UnfaithfulBodies.dfy`: the bodies on which the two differ.
- `Sublists.dfy`, `JoinCards.dfy`, `OperandText.dfy`, `Substitution.dfy`: macro arguments, continued operands,
  the extent of an operand field, and symbolic variables.
- `IbmHex.dfy`: hexadecimal floating point over exact reals (IBM System/360 Principles of Operation,
  "Floating-Point Arithmetic").
- `Protect.dfy`, `ProtectCards.dfy`: store-protect ranges, the cards that carry them, and both in a module
  written and read.
- `CardFormat.dfy`, `CardLayout.dfy`, `ObjectModule.dfy`, `CanonicalForm.dfy`, `CanonicalLines.dfy`: the 80-byte
  cards, what a module writes on them, and the canonical form a reader recovers, line by line ("MVS Program
  Management: Advanced Facilities", Appendix A).
  `CardWriter.dfy` and `ObjectWriter.dfy` are the writer and the reader themselves, buffers and loops.
- `Wrappers.dfy`, `Basics.dfy`: the optional value, and what several components share.

Code that works step by step is a method with its loops, on fields, buffers and dictionaries where the
original has them, proved equal to a function; what the code promises is proved about the functions. Every
lemma switches automatic induction off, so that each proof is the one written down.

## What came out false, and when it is true

- **Hashcodes.** The documentation excludes the all-ones hash; the random draw does not (`GetHashcode`). A
  symbol that drew it is taken for a number, unless something is subtracted from it (`UnhashSymbol`,
  `ResolveSigned`, `ExternalLinks`). Two symbols may draw the same hash, and then the first is lost.
- **Recovered displacements.** A plain number of 2^35 or more is taken for a symbol when the hash 1 is in use
  (`LargeNumberMistaken`).
- **Displacements that leave the section.** The section's offset is added to a displacement's magnitude, and
  the sum is relocated by the section that owns it. The constant links rightly wherever the sections are moved
  exactly when that is the symbol's own section and, if the displacement is negative, the section stands at
  zero (`SectionLinks`, `SectionAlwaysLinks`).
- **Shortening.** With fullword alignment a distance can grow by two bytes while code shrinks and with
  doubleword alignment by six, so a branch keeps the reach it was judged by exactly when it has that room
  (`ReachKept`, `BackReachKept`); the pass itself pushes a target out wherever the room is missing
  (`PassReach`). The constants of one DC share one alignment, so an address can rise; `RisesWhen` and
  `SharedAlignmentRises` say when.
- **The pass loop.** A literal pool recorded at a new position, or a section grown at its end, asks for no
  other pass, and a word worked out from what has moved may then not be its encoding under the tables the pass
  leaves (`QuietAndWrong`, `GrownAndWrong`). Where nothing is worked out from what has moved every word is
  (`QuietWords`): so with pools that stand still, if only no word reads a high-water mark (`FixedPools`). With
  neither moved the tables are a solution (`Settled`).
- **Literals of addresses.** A literal is stored anew only when its value changes. An address constant has the
  section's offset in its bytes and not in that value, so its bytes keep the offset of an earlier pass
  (`StaleLiteral`). Where the value determines the bytes they are right in every pass (`PassEncoded`).
- **Literal pools.** A pool that holds eight-byte literals is set on a doubleword but slid down by fullwords,
  and stays on one exactly when the first fullword behind the section is one (`Aligned`, `DoublewordLost`).
- **Bit packing.** The comment above the code speaks of padding to a byte; the code, and a later comment,
  pads to a halfword (`Length`).
- **Sequence symbols.** A label with nothing after it is never matched by the scan (`BareLabelLost`); a
  continuation card or an indented one that begins with a sequence symbol may stop a scan or be recorded as its
  definition (`ContinuationMistaken`). `AgreesExactly` says of every body with unique labels whether the reader
  does what it should for all statements.
- **Sublists.** The empty sublist does not survive rendering (`Sublists.RoundTrip`), as the source says.
- **Joined cards.** A blank outside strings that ends a piece cut at column 71 is lost (`CutKept`).
- **Short constants.** They are rounded twice; `TwiceIsOnce` says when the word differs from that of rounding
  once, and `TwiceIsNotOnce` that it does at every exponent.
- **The unnamed section.** Its PROT card has the ranges where the name should be, and so names no section
  (`UnnamedCard`).
- **Tiny numbers.** Below 16^-65 the exponent is clamped and the value comes out too large (`Accurate`).
- **Object modules.** With store protection left out no END record is written (`CanonicalKinds`). Without a
  control section an entry is put down in item 1, whichever that is, and the canonical form then depends on
  the order of entries (`OrderIrrelevant`).

## Model

| member | source | states |
|---|---|---|
| PseudoAddress.Registry.GetHashcode | ASM101S/model101.py:272-278 | a symbol keeps the hashcode it has and otherwise gets the one drawn; earlier symbols keep theirs exactly when the draw was not in use |
| PseudoAddress.EvalAgrees | ASM101S/expressions.py:862-912 | integer evaluation of an expression that has a linear form is what the form denotes |
| PseudoAddress.LinearForm | ASM101S/model101.py:144-158 | every expression of known symbols has such a form if of each product one side, and of each quotient both, are without symbols; a constant one has a form without symbols |
| PseudoAddress.DivideTruncates | ASM101S/expressions.py:895-907 | a quotient leaves a remainder smaller than the divisor and of the dividend's sign, so it is rounded towards zero; dividing by zero gives zero |
| PseudoAddress.QuotientTruncates | ASM101S/expressions.py:895-907 | and so does the evaluation of a quotient |
| PseudoAddress.EvalSingle | ASM101S/model101.py:144-158 | an expression whose sections cancel to one symbol once evaluates to that symbol's hash plus the net offset |
| PseudoAddress.ReadAddress | ASM101S/model101.py:297-306 | such a value is read back as the symbol and the net offset if and only if that offset is a 32-bit one and the hash is not all ones |
| PseudoAddress.ReadNumber | ASM101S/model101.py:301-303 | an expression whose symbols all cancel is read back as its number if and only if the number stays within 36 bits |
| PseudoAddress.UnhashSymbol | ASM101S/model101.py:297-306 | a hash plus a displacement is split into symbol and displacement if and only if the displacement lies in [0, 2^32) and the hash is not all ones, which leaves a number |
| PseudoAddress.BorrowFields | ASM101S/model101.py:3264-3272 | a negative displacement borrows from the hash: one hash lower, and 2^36 less the displacement below it |
| PseudoAddress.ResolveSigned | ASM101S/model101.py:702-723 | with the recovery, a symbol plus a displacement is resolved to both if and only if the displacement lies in [-2^35, 2^32), or in [-2^35, 0) if the hash is all ones |
| PseudoAddress.ResolveNumber | ASM101S/model101.py:718-723 | the recovery leaves numbers below 2^35 alone |
| PseudoAddress.LargeNumberMistaken | ASM101S/model101.py:718-723 | from 2^35 on a number is left alone if and only if the hash 1 is not in use |
| Placement.Assembly.PlaceSections | ASM101S/model101.py:5298-5327 | the loop gives every section the offset the placement function gives it and reports exactly whether one changed |
| Placement.EndIsGreatest | ASM101S/model101.py:5309-5320 | the end of a section is the greatest of its high-water mark and the ends of its pools |
| Placement.StartsDisjoint | ASM101S/model101.py:5298-5322 | a section starts at or behind the end of every one before it, for any number of sections |
| Placement.StartsGaps | ASM101S/model101.py:5301-5307 | between neighbours: packed after a ZCON-only section by another, else rounded to a doubleword or a fullword |
| Placement.FirstAtZero | ASM101S/model101.py:5296-5308 | the first control section stands at zero |
| Placement.DummiesStay | ASM101S/model101.py:5298-5300 | dummy sections are left alone |
| Placement.ZconOnlyMeans | ASM101S/model101.py:5247-5257 | a section counts as ZCON-only if and only if it laid something down and nothing but ZCONs |
| Placement.RoundsWithin24 | ASM101S/model101.py:5304-5307 | the masks round up to the next doubleword or fullword modulo 2^24 |
| Placement.Assembly.ContainingSection | ASM101S/model101.py:1465-1475 | the search loop finds the first section of the module whose used extent holds the address |
| Placement.PlacedOneOwner | ASM101S/model101.py:1469-1474 | after placement no address lies in the extents of two sections |
| Placement.PlacedOwners | ASM101S/model101.py:1465-1475 | after placement, asked for from a control section, every address of a section's used extent is given to that section |
| Placement.PlacedDefault | ASM101S/model101.py:1465-1475 | an address in no extent is given to the default, and so is any asked for from what is no control section |
| Placement.Emitting | ASM101S/model101.py:3242-3306 | any symbol plus a displacement is emitted as the magnitude behind the section's offset with the displacement's sign, except that a symbol with the all-ones hash and nothing subtracted is emitted as a number |
| Placement.ExternalLinks | ASM101S/model101.py:3242-3306 | an external symbol plus or minus anything that fits the halfword links to exactly that, under the sign-bit rule, if and only if its hash is not all ones or something is subtracted |
| Placement.SectionLinks | ASM101S/objectWriter.py:267-278 | a symbol of the module's own sections plus a displacement is relocated by the owner of offset plus magnitude, and links to section plus displacement if and only if the owner is moved as the section is, by twice the offset more if the displacement is negative |
| Placement.SectionAlwaysLinks | ASM101S/model101.py:3294-3306 | it does so wherever the sections are moved if and only if the owner is the symbol's own section and the displacement is not negative or the section stands at zero |
| Relaxation.AlignUpByRemainder | ASM101S/model101.py:640-645 | the multiples by which the layout is stated are what the remainder computation makes up |
| Relaxation.RelayResult | ASM101S/model101.py:635-650 | laying out again behind a shortened entry gives a layout, leaves what is before it alone and changes nothing but positions |
| Relaxation.ShiftedBelow | ASM101S/model101.py:635-650 | layout is monotone and periodic: starts that lie whole periods apart stay so |
| Relaxation.DistanceBound | ASM101S/model101.py:627-663 | under any sequence of shortenings a distance grows by at most the largest alignment less two bytes, so with halfwords only never |
| Relaxation.NeverHigher | ASM101S/model101.py:627-650 | no address ever rises |
| Relaxation.StaysInReach | ASM101S/model101.py:816-831 | a branch in short reach, forward or backward, stays in it if the growth its alignments allow leaves it in reach, with halfwords always |
| Relaxation.GrowthAttained | ASM101S/model101.py:627-663 | at every distance there is a layout in which shortening branches that are in reach makes the distance grow by just that much |
| Relaxation.ReachKept | ASM101S/model101.py:825-831 | a branch on to a target at a given distance is safe from all later shortenings if and only if the growth leaves it in reach |
| Relaxation.BackReachKept | ASM101S/model101.py:816-822 | so is a branch back |
| Relaxation.RisesWhen | ASM101S/model101.py:635-650 | whatever the layout and the alignments, a shortening pushes a later entry up if and only if the short instruction ends behind the last place reckoned back from that entry over the lengths and alignments between |
| Relaxation.RoomNeverRises | ASM101S/model101.py:635-650 | where every entry has the room its alignment asks for none rises |
| Relaxation.SharedAlignmentRises | ASM101S/model101.py:640-645 | a constant that shares the alignment of a wider one in its DC and stands right behind unaligned code rises if and only if it stands more than the two bytes gained behind a boundary |
| ReachTest.DecideMeans | ASM101S/model101.py:804-941 | an ambiguous instruction whose operand is an address is made short if and only if a branch to it in the own section goes less than 55 halfwords on or, where the operation has a form for it, back, or the least address captured for a base of the section is below 55, or some base now points less than 55 units before it; of the others only count branches are settled as long |
| ReachTest.DecideRest | ASM101S/model101.py:746-803 | an indexed operand and one without a value are settled as long, a number is made short behind a base if it is below 55 |
| ReachTest.BasePoints | ASM101S/model101.py:870-904 | a base points where its expression stands now, else where the entry behind its USING stands, else where it was captured, each register 4096 beyond the one before |
| ReachTest.DecideBranch | ASM101S/model101.py:806-831 | a branch to a label of its own section, no base being in force, is made short if and only if the distance the layout gives is a short one |
| Shortening.Optimizer.Adjust | ASM101S/model101.py:627-663 | the entry becomes short and the rest of its section and its labels are laid out again, as the functions say |
| Shortening.Optimizer.Consider | ASM101S/model101.py:738-941 | one ambiguous entry is shortened, settled as long or left for another run, as the reach test says |
| Shortening.Optimizer.OptimizeScratch | ASM101S/model101.py:621-941 | a run over all sections is the function of the state it begins with and counts its shortenings |
| Shortening.Optimizer.Optimize | ASM101S/model101.py:5139-5141 | runs until one shortens nothing, twenty at most |
| Shortening.AdjustedImproves | ASM101S/model101.py:627-663 | a shortening keeps the layout, raises no address and retires one ambiguous entry |
| Shortening.RunImproves | ASM101S/model101.py:666-941 | so does a run, retiring at least one ambiguous entry for each shortening it counts |
| Shortening.RunsSettle | ASM101S/model101.py:5139-5141 | with fewer ambiguous entries than the cap the runs end in the fixed point, before the cap |
| Shortening.FixedPointQuiet | ASM101S/model101.py:5129-5141 | in the fixed point no entry still ambiguous passes its reach test |
| Shortening.FixedPointLabelled | ASM101S/model101.py:651-663 | and every label stands at its entry's address under its own hash |
| ReachTest.FixedPointOthers | ASM101S/model101.py:651-663 | and every symbol that labels no entry keeps its value |
| ReachTest.FixedPointReach | ASM101S/model101.py:5129-5141 | so a branch to a label of its own section that is still long in the fixed point is out of short reach there, on and back |
| Shortening.RunsImprove | ASM101S/model101.py:5139-5141 | any number of runs keeps the layout and raises no address |
| Shortening.PassDistances | ASM101S/model101.py:5139-5141 | what any number of runs does to positions and distances within a section |
| Shortening.PassKeepsReach | ASM101S/model101.py:5139-5141 | a branch with room for the growth is in reach after any number of runs |
| Shortening.PassAttains | ASM101S/model101.py:5139-5141 | a program all of whose ambiguous entries are branches in reach, in which the runs settle with the target pushed off by the whole growth |
| Shortening.PassReach | ASM101S/model101.py:816-831 | a branch on or back that stands at a given distance before the pass is sure to be in short reach after it if and only if the growth leaves it in reach |
| Shortening.ReachBlind | ASM101S/model101.py:795-941 | the reach test depends on nothing but the entry, the symbol table and its section's value, which the fixed-point argument needs |
| PassLoop.Assembler.Record | ASM101S/model101.py:1394-1424 | a label is recorded anew; one that moved and was not preliminary asks for another pass |
| PassLoop.Assembler.Store | ASM101S/model101.py:3428-3442 | a literal whose value changed is stored with its bytes and asks for another pass, a change of the bytes alone is not noticed; one missing from its pool stops the statement |
| PassLoop.Assembler.AssembleEqu | ASM101S/model101.py:1985-2067 | an EQU that is new or changed asks for another pass |
| PassLoop.Assembler.AssembleLtorg | ASM101S/model101.py:2086-2131 | the pool's position is recorded and asks for nothing; the location counter passes the pool |
| PassLoop.Assembler.CompilePass | ASM101S/model101.py:1762-1830 | a pass over the shared dictionaries is the pass function of what they held |
| PassLoop.Assembler.Passes | ASM101S/model101.py:1757-1764 | passes follow one another from pass 3 until one asks for no other, twenty at most |
| PassPlaces.CodePlaces | ASM101S/model101.py:1366-1424 | a word and its label are put into the current section at its counter rounded up to the alignment, behind which the counter then stands |
| PassPlaces.LabelMoves | ASM101S/model101.py:1397-1424 | a settled label found in another section or at another position asks for another pass |
| PassPlaces.LtorgPlaces | ASM101S/model101.py:2086-2131 | a pool is recorded on the next fullword of the current section, and the counter passes it |
| PassPlaces.InSection | ASM101S/model101.py:1397-1424 | everything between a CSECT and the next is put into its section |
| PassPlaces.NoOverlap | ASM101S/model101.py:1366-1370 | no two words that a pass puts into a section overlap, and all lie below the section's high-water mark |
| PassLoop.QuietPass | ASM101S/model101.py:1394-1424 | a pass that asks for no other has changed no label, EQU, literal value or section offset |
| PassLoop.Settled | ASM101S/model101.py:1762-1764 | a pass asks for no other and leaves pool positions and high-water marks alone if and only if the tables it begins with solve the program: assembled against them, every label, EQU, literal, pool and offset comes out as they have it |
| PassLoop.SettledWords | ASM101S/model101.py:1762-1764 | then every word emitted is its encoding under the final tables, though forward references were read before their definitions, and another pass repeats it |
| PassLoop.LastOfPasses | ASM101S/model101.py:1762-1764 | the last pass of the loop has emitted every word as its encoding under the tables it leaves if nothing is worked out from what it moved, and is final if it moved neither pool positions nor high-water marks |
| PassLoop.ReadyAfter | ASM101S/model101.py:1420 | after one pass no label is preliminary, so every later move is noticed |
| PassLoop.QuietWords | ASM101S/model101.py:1762-1764 | a pass that asks for no other has emitted every word as its encoding under the tables it leaves, unless one is worked out from a pool position and a pool moved, or from a high-water mark and one of those did |
| PassLoop.FixedPools | ASM101S/model101.py:1762-1764 | if the last pass leaves the pools where they were, every word is its encoding under the final tables, provided none is worked out from a high-water mark |
| PassLoop.QuietAndWrong | ASM101S/model101.py:2103 | a pool recorded at a new position, and a word worked out from it: the pass asks for no other and the word is not its encoding under the tables it leaves |
| PassLoop.PassEncoded | ASM101S/model101.py:3436-3442 | where the bytes of a literal are a function of its value, every pass leaves bytes that encode the values |
| PassLoop.StaleLiteral | ASM101S/model101.py:3440-3442 | an address literal of a section that moves keeps the bytes of the section's old place, though the pass that follows asks for no other and leaves the tables alone |
| PassLoop.GrownAndWrong | ASM101S/model101.py:1762-1764 | the same of a section's high-water mark, when nothing else moves |
| LiteralPool.ClassMeans | ASM101S/model101.py:5109-5114 | the class of a length is the largest of 8, 4, 2 and 1 that divides it |
| LiteralPool.Layout | ASM101S/model101.py:5096-5123 | any two literals lie apart, naturally aligned, in a pool as long as the literals together |
| LiteralPool.Pool.LayOut | ASM101S/model101.py:5096-5128 | the loops place every literal once at the offset the function gives, and find the size of the pool and its widest alignment |
| LiteralPool.WidestMeans | ASM101S/model101.py:5096-5108 | that alignment is a doubleword if and only if some literal is a whole number of doublewords long, else a fullword |
| LiteralPool.SlideDown | ASM101S/model101.py:5202-5204 | the loop slides a pool that stands on a fullword behind the section down to the first fullword behind it |
| LiteralPool.SlidRests | ASM101S/model101.py:5192-5206 | so does the function, from any distance |
| LiteralPool.Aligned | ASM101S/model101.py:5199-5206 | in memory every literal is naturally aligned, an eight-byte one if and only if the first fullword behind the section is a doubleword |
| LiteralPool.DoublewordLost | ASM101S/model101.py:5199-5206 | a pool set on a doubleword stays on one if and only if the first fullword behind the shrunk section is one |
| LiteralPool.Section.WritePool | ASM101S/model101.py:5332-5345 | after writing, every literal is read back at its offset, the gap holds the fill pattern and the rest of memory is as it was |
| BitPacking.Pack | ASM101S/model101.py:2312-2469 | the packing loops produce bytes holding exactly the packed group, or nothing if a field cannot be evaluated |
| BitPacking.ReadsBack | ASM101S/model101.py:2410-2412 | slicing the bytes at the place of a copy of a value gives the value modulo two to its width |
| BitPacking.BitsModulo | ASM101S/model101.py:2411-2412 | the bits appended for a value, negative or not, denote it modulo two to the width |
| BitPacking.Starts | ASM101S/model101.py:2331-2332 | a plain constant starts on the next byte, a bit-length one right behind its predecessor |
| BitPacking.FieldWidth | ASM101S/model101.py:2300-2330 | a field with a bit length is that many bits wide, any other its bytes |
| BitPacking.Ends | ASM101S/model101.py:2404-2412 | a field ends behind its values, each repeated, and the group begins with the first |
| BitPacking.RunsKnown | ASM101S/model101.py:2321-2416 | there is a group if and only if every length, duplication factor and value is known |
| BitPacking.ByteOfBits | ASM101S/model101.py:2464-2467 | the first bit of a byte is its most significant one |
| BitPacking.Padding | ASM101S/model101.py:2331-2332 | every bit that belongs to no field is zero |
| BitPacking.Length | ASM101S/model101.py:2417-2463 | the group is the least whole number of halfwords |
| ConditionalAssembly.Read | ASM101S/ASM101S.py:534-821 | the reading loop visits, scans and branches as the lazy reader function says |
| ConditionalAssembly.ReadingTerminates | ASM101S/ASM101S.py:525-537 | a body of n cards entered with counter K is left after at most (K + 1) * n visits, whatever its conditions say |
| ConditionalAssembly.VisitsBounded | ASM101S/ASM101S.py:730-786 | the same from any state of the reader |
| ConditionalAssembly.ReaderRefinesPlain | ASM101S/ASM101S.py:742-821 | on every faithful body with unique labels the reader executes exactly what an interpreter going straight to the labelled line does |
| ConditionalAssembly.ScanLands | ASM101S/ASM101S.py:534-552 | a scan started by a branch stops at a card that leads to the label, or nowhere if there is no label |
| ConditionalAssembly.ScannedSound | ASM101S/ASM101S.py:537-552 | on a faithful body with unique labels a card passed by a scan leaves the table right: what is recorded leads to its label, and every label below the high-water line is recorded |
| ConditionalAssembly.ParsedSound | ASM101S/ASM101S.py:647-653 | and so does a statement executed, so that a label is found in the table by a card that leads to it or lies beyond the line (`Found`) |
| ReadingOrder.ExecutesStatements | ASM101S/ASM101S.py:606-639 | no comment and no continuation card is ever executed, and no more cards than are visited |
| ReadingOrder.ContinuationsMean | ASM101S/ASM101S.py:647-648 | the cards skipped with a statement whose operand is joined are all of its continuations |
| ReadingOrder.StraightThrough | ASM101S/ASM101S.py:534-655 | without branches every card is visited once and every statement executed, in order |
| ReadingOrder.BranchLands | ASM101S/ASM101S.py:742-786 | the reference goes from a branch to the statement that has the symbol in column 1 |
| UnfaithfulBodies.AgreesExactly | ASM101S/ASM101S.py:534-821 | with unique labels the reader does what that interpreter does for all statements and counters if and only if no card stops a scan without leading to the label, every label behind a statement stops the scan for it, and no scan that stops passes a card that it takes for a definition wrongly |
| UnfaithfulBodies.BareLabelLost | ASM101S/ASM101S.py:537 | where only labels bear sequence symbols, it does so if and only if every label behind a statement has a blank after it |
| UnfaithfulBodies.ContinuationMistaken | ASM101S/ASM101S.py:547-551 | where every label behind a statement has a blank after it, it does so if and only if no other card that begins with a sequence symbol misleads a scan or is recorded wrongly by one |
| UnfaithfulBodies.MistakenFails | ASM101S/ASM101S.py:547-551 | a card recorded wrongly is shown by two branches, one that scans past it and one to its symbol |
| Sublists.RoundTrip | ASM101S/fieldParser.py:427-448 | rendering an argument and parsing it by the list rule gives it back if and only if every sublist has entries and its atoms are plain or suffixed; the empty sublist comes back with one null entry |
| Sublists.GoodMeans | ASM101S/fieldParser.py:444-448 | which atoms those are: text without blanks, commas and parentheses, alone or before a suffix in parentheses that holds none itself |
| Sublists.ItemBack | ASM101S/expressions.py:176-185 | the same direction with anything following that may follow an entry, for any depth |
| Sublists.SuffixBack | ASM101S/fieldParser.py:444-448 | text with a parenthesised suffix is one entry |
| Sublists.UnclosedSuffix | ASM101S/fieldParser.py:444-448 | a suffix that is not closed or holds a parenthesis does not belong to the entry |
| Sublists.SubscriptMacroArgument | ASM101S/expressions.py:190-197 | the subscript loop with its early return is the subscript function |
| Sublists.SubscriptMeans | ASM101S/expressions.py:190-197 | a subscript takes an entry counted from 1, text being a sublist of one, and null beyond the ends |
| Sublists.SubscriptTwice | ASM101S/expressions.py:190-197 | subscripting by a joined index list is subscripting twice |
| JoinCards.OperandFieldEnd | ASM101S/fieldParser.py:610-631 | the scan finds the first blank outside strings and parentheses |
| OperandText.FieldEndsBehind | ASM101S/fieldParser.py:593-631 | so text made of characters, quoted strings and parentheses nested to any depth is all one field up to the blank behind it, whatever blanks the strings and parentheses hold |
| OperandText.OpenGroup | ASM101S/fieldParser.py:593-631 | and a parenthesis that is not closed holds everything behind it |
| JoinCards.InsideQuote | ASM101S/fieldParser.py:636-646 | text ends inside a string if and only if it has an odd number of quotes |
| JoinCards.SliceMeans | ASM101S/fieldParser.py:727 | of a card those columns are taken that it has |
| JoinCards.JoinOperand | ASM101S/fieldParser.py:655-782 | the joining loop is the joining function, with the number of cards taken |
| JoinCards.JoinInvertsSplit | ASM101S/fieldParser.py:669-727 | an operand cut over any number of cards comes back exactly as the operand field, and all its cards are taken |
| JoinCards.FillerExact | ASM101S/fieldParser.py:701-727 | a piece of the operand is taken over alone if and only if its card was filled up in one of the three ways |
| JoinCards.CutKept | ASM101S/fieldParser.py:725-726 | a piece cut at column 71 is kept if and only if no blank outside strings ends it |
| JoinCards.CommentEnds | ASM101S/fieldParser.py:687-698 | a complete operand is not continued by the card that continues its comment |
| JoinCards.CommentTaken | ASM101S/fieldParser.py:728-752 | the typed cards that continue a comment are taken and add nothing; a card stamped by macro expansion is not taken |
| Substitution.SvReplace | ASM101S/expressions.py:324-480 | for any text without subscripts the loop is one substitution on the tokens of the original text, which no value can change |
| Substitution.TokensText | ASM101S/expressions.py:467-480 | the tokens make up the text they were taken from |
| Substitution.TokensBack | ASM101S/expressions.py:285 | text put together of literals and references without subscripts, with or without joining dots, is taken apart into the same |
| Substitution.Simultaneous | ASM101S/expressions.py:341-350 | so the result is the literals and the values in order, even for adjacent references and values that look like references |
| Substitution.LookupMeans | ASM101S/expressions.py:313-319 | a local variable hides a global one, which is seen only where declared, but for the two that the assembler sets |
| Substitution.RenderedMeans | ASM101S/expressions.py:412-443 | text stands for itself, a number for its magnitude in decimal, a truth value for 1 or 0 |
| Substitution.NameCharacters | ASM101S/expressions.py:285 | the characters of names |
| Substitution.NoReference | ASM101S/expressions.py:285 | an ampersand behind another, before no name or before a name that an underscore follows stands for itself |
| IbmHex.ConvertToFloatIBM | ASM101S/ibmHex.py:63-111 | the loops normalise, round and carry as the functions say |
| IbmHex.NormalKeeps | ASM101S/ibmHex.py:77-82 | normalising keeps the value and ends with a nonzero leading digit |
| IbmHex.NormalUnique | ASM101S/ibmHex.py:77-82 | there is only one normalised form |
| IbmHex.Accurate | ASM101S/ibmHex.py:63-111 | refused exactly where rounding passes the greatest exponent; otherwise normalised, signed and within half a unit of the 56th bit, carry included, if and only if the value is at least 16^-65 |
| IbmHex.ZeroWords | ASM101S/ibmHex.py:66-68 | zero, and no other value, is all zeros |
| IbmHex.Monotone | ASM101S/ibmHex.py:88-111 | on positive values neither clamped nor refused the 63-bit magnitude is monotone |
| IbmHex.RoundTrip | ASM101S/ibmHex.py:137-144 | encoding the decoding of any normalised pair gives it back |
| IbmHex.RoundFloatIBMShort | ASM101S/ibmHex.py:122-133 | the short word of a normalised pair is normalised, signed and denotes the fraction rounded half up to 24 bits; it is an error exactly past the greatest exponent |
| IbmHex.RoundsTo | ASM101S/ibmHex.py:122-133 | for any sign, exponent and fraction it is the word of the rounded fraction, a carry moving into the exponent |
| IbmHex.RoundedTwice | ASM101S/ibmHex.py:114-133 | rounded twice the result is within half a short unit plus half a long one |
| IbmHex.TwiceIsOnce | ASM101S/ibmHex.py:114-133 | rounding a value to double and then to short gives the word that rounding it once gives if and only if it does not lie just below the middle of two short ones |
| IbmHex.TwiceIsNotOnce | ASM101S/ibmHex.py:114-133 | a quarter of a long unit below the middle the two words differ, for every sign, exponent and fraction |
| Protect.ProtectRanges | ASM101S/objectWriter.py:313-333 | the ranges are ordered, disjoint and nonempty, and a halfword lies in one if and only if the last mark at or before it, else the default, says protected |
| Protect.GoverningMeaning | ASM101S/objectWriter.py:322-325 | which mark that is when marks share an offset or were recorded out of order |
| Protect.SortedState | ASM101S/objectWriter.py:322 | sorting the marks changes none of it |
| Protect.Batches | ASM101S/objectWriter.py:161-172 | the batches concatenate back to the pieces in order, fit their columns when single pieces do, and none could have taken the next piece |
| Protect.PieceReadsBack | ASM101S/objectWriter.py:161 | a piece is read back as its range |
| ProtectCards.ProtectCardBack | ASM101S/objectWriter.py:174-181 | the card of any section survives writing and reading but for a blank at its end |
| ProtectCards.TextRanges | ASM101S/objectWriter.py:155-181 | taken apart at its blanks, commas and hyphens a card gives its ranges to its section and to no other |
| ProtectCards.UnnamedCard | ASM101S/objectWriter.py:174-177 | the card of the unnamed section has its ranges as the word where the name should be |
| ProtectCards.ProtectControls | ASM101S/objectWriter.py:306-334 | the marks are sorted by section and the walk over the sections writes cards for exactly those control sections that have marks and are not empty, with ranges that hold just the halfwords the marks, else the default, protect |
| ProtectCards.MarksApart | ASM101S/objectWriter.py:307-309 | a mark counts for its own section alone, behind those met before |
| ProtectCards.MarkedMeans | ASM101S/objectWriter.py:310-315 | the sections that get cards are the control sections that are not empty and in which a mark was met |
| ProtectCards.WriteProtectedModule | ASM101S/objectWriter.py:186-358 | the deck of a module says what the module says with such cards for its own control sections, each of its own length, or with none if store protection is left out |
| ProtectCards.HalfwordsHold | ASM101S/objectWriter.py:313 | a section is as many halfwords long as hold its bytes |
| ProtectCards.ProtectionReadBack | ASM101S/objcanon.py:49-70 | and what is read back from it protects exactly those sections, each as its marks say |
| CardFormat.Be24Back | ASM101S/objectWriter.py:24 | three bytes hold a number modulo 2^24 |
| CardFormat.NameRead | ASM101S/objectWriter.py:12-16 | a name cut or blank-padded to its columns is read as it was cut, without blanks at its end |
| CardFormat.EsdBack | ASM101S/objectWriter.py:35-76 | an ESD card is read as its first number and its items |
| CardFormat.TxtBack | ASM101S/objectWriter.py:78-92 | a TXT card is read as its section, address and exactly its bytes |
| CardFormat.RldCardBack | ASM101S/objectWriter.py:94-115 | an RLD card is read as its relocations |
| CardFormat.EndBack | ASM101S/objcanon.py:96-108 | the END record is read as naming no entry point |
| CardFormat.DeckBack | ASM101S/objcanon.py:56-108 | a whole deck is read as what it was written to say |
| CardLayout.Codes | ASM101S/objectWriter.py:12-16 | letters have the codes of the EBCDIC table |
| CardLayout.OtherCodes | ASM101S/objectWriter.py:12-16 | so have digits and the special characters |
| CardLayout.DeckColumns | ASM101S/objectWriter.py:27-33 | object records begin with 02 and bear their place in the deck modulo 10^8; control cards begin with a blank and are their text |
| CardLayout.EsdCardAt | ASM101S/objectWriter.py:35-50 | items go three to a card, each card naming the number of its first |
| CardLayout.RldCardAt | ASM101S/objectWriter.py:94-105 | relocations go seven to a card |
| CardLayout.EntryPointRead | ASM101S/objcanon.py:96-108 | an END record is read as naming the entry point in its fields unless both are blank |
| CardLayout.OthersIgnored | ASM101S/objcanon.py:68-108 | records of other kinds are passed over |
| CardWriter.LayItem | ASM101S/objectWriter.py:53-71 | the slice assignments of one ESD item put its sixteen bytes in place and leave the rest of the buffer |
| CardWriter.Lay | ASM101S/objectWriter.py:31 | a slice assignment changes its columns and no others |
| CardWriter.MakeCard | ASM101S/objectWriter.py:27-33 | a card is type, data and number in their columns |
| ObjectWriter.WriteEsd | ASM101S/objectWriter.py:35-76 | the batching loop writes the items three to a card |
| ObjectWriter.WriteTxt | ASM101S/objectWriter.py:78-92 | the chunking loop writes the bytes 56 to a card |
| ObjectWriter.WriteRld | ASM101S/objectWriter.py:94-115 | the batching loop writes the relocations seven to a card |
| ObjectWriter.BuildItems | ASM101S/objectWriter.py:187-248 | items and both number dictionaries, which later names overwrite, are those of the module |
| ObjectWriter.RelocationIds | ASM101S/objectWriter.py:250-284 | relocations by unknown symbols or in unknown sections are dropped, the others numbered and flagged |
| ObjectWriter.WriteObjectModule | ASM101S/objectWriter.py:186-358 | the deck says exactly what the module says, unless there are 65536 items or more |
| ObjectWriter.Canon | ASM101S/objcanon.py:49-135 | the reading loop collects what the cards say and names it, failing where a count runs off its card |
| CanonicalForm.RoundTrip | ASM101S/objcanon.py:49-135 | reading what was written and naming the numbers recovers sections, entries, externals, relocations, text and control cards, stated by name alone |
| CanonicalLines.EntryAddress | ASM101S/objectWriter.py:231-237 | an entry's item has the byte address of its place behind its section's offset, zero if the module has no such section |
| CanonicalLines.CanonicalMeans | ASM101S/objcanon.py:110-132 | what the lines are, said of the module: one for each control section, known entry, external and relocation between known ends, for every 56 bytes of each control section's memory, and for the controls, with their addresses, owners and flags; and no others |
| CanonicalLines.LinesReadBack | ASM101S/objcanon.py:49-135 | just these lines are read back from the deck written |
| CanonicalLines.NamedMeans | ASM101S/objcanon.py:112-113 | a number is shown as the name filed under it, without one in decimal behind a question mark |
| CanonicalLines.EntryPointLine | ASM101S/objcanon.py:117-121 | an entry point read has a line with its address and its section's name |
| CanonicalForm.ChunkAt | ASM101S/objectWriter.py:80-87 | the text lines of a section are exactly its used memory, 56 bytes to a line |
| CanonicalForm.OrderIrrelevant | ASM101S/objcanon.py:11-20 | another order of entries and externals gives the same canonical form if and only if there is a control section or the first entry is the same |
| CanonicalForm.CanonicalKinds | ASM101S/objectWriter.py:306-356 | the END line is there if and only if store protection is not left out; the LD lines are those of the entries |

## Left out

- Parsing: statements, expressions, conditions and operands are given as values; of the grammar only `list`
  and `listItem` are modelled.
- The instruction tables and encoders, from `model101tables`, which is not part of this model. An encoding
  is a function of the tables and the place it is evaluated at.
- The place of a literal inside the optimizer: an operand that is one is given as its section plus an offset.
- The choice among short and long forms by mnemonic beyond the reach test of the optimizer, and the suffixes
  `$`, `@` and `#`.
- EQU statements and ORG inside the optimizer, and a reach test that fails on an undefined base register.
- The two collecting passes are not run by `PassLoop`: any tables without preliminary labels may begin the
  compile passes. `ReadyAfter` shows that one pass over the statements is enough for that.
- Alternatives within a statement that the pass loop cannot see: diagnostics, duplicate definitions, and
  attributes of symbols. Sections are numbers; statements before any CSECT belong to section 0.
- Nested COPY and macro definitions inside a body that is read, macro expansion within it, ACTR executed in
  the middle of it where termination is concerned, and an AGO without an operand.
- Substitution.SvReplace: text in which a reference is followed by a parenthesis, which the code may take for a
  subscript, and K' and N' prefixes.
- Joining of macro prototypes and invocations, which goes by the parser's end positions; tabs and other white
  space than the blank.
- Macro arguments that are not character strings or sublists of them.
- The precision of 20 digits of decimal arithmetic and the binary result of decoding: `IbmHex` works on exact
  reals.
- Characters other than capital letters, digits, blank and `$ # @ _ - , .` in names and control cards: other
  codes are read as blanks. Names longer than eight columns, and control texts longer than a card.
- Object files whose length is not a multiple of 80; the alphabetical order of the canonical lines, which is
  a function of what is proved, the lines with their multiplicities.
- Placement.PlacedOwners: sections of odd byte length are halved downwards on both sides, as the code does; what lies in
  the odd byte is given to nobody.
- ProtectCards.ProtectControls: the unnamed section, whose card names no section (`UnnamedCard`).
- ObjectWriter.WriteObjectModule: when there are too many items, the original fails in the middle of the file; the model
  says only that it fails.
- Reading and writing of files, library search, listings, cross references, comparison reports and command
  lines.

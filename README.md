# NCBI utilities: a verified model

This project models the core of the SEEDtk `ncbi.utils` tools in Dafny and proves properties of that model. The tools download sequencing reads from the NCBI Sequence Read Archive (SRA) and write tab-delimited reports over NCBI records. The model covers four parts:

- **Read-pairing download engine** (`download` package).
  - Reading four-line FASTQ records (`SeqPart`).
  - Classifying paired and single-read headers (`PairedReadSample`, `SingleReadSample`).
  - Merging a sample's runs without counting spots twice (`ReadSample`).
  - The one-slot pairing state machine that routes each record to the left, right or singleton file, with its pair, singleton, error and read counters (`NcbiDownloader`).
- **Fetch orchestration** (`NcbiFetchProcessor`).
  - Partitioning input ids into run and sample sets.
  - Fixed-size batching of accession sets.
  - Merging experiment packages into the sample map.
  - Per-sample skip/download/fail accounting with marker files.
- **Report helpers** (`NcbiTableReporter`).
  - Keyword-filter setup and test.
  - `formatLine` and the output-map fillers.
  - `cleanHtml`.
  - The project, project-table and PubMed reports built on them.
- **Query builders.**
  - The list processor's key set and batched queries.
  - The query processor's filter and since-date validation and its one-shot query iterator.

Each core Java file becomes one Dafny module with the same name; the modules are written as `snake_case.dfy` files. Four shared modules support them:

- `Util`: results, Java character classes, commons-lang string helpers, chunking, `Integer.valueOf` and `int` wrap-around.
- `SortedSets`: `TreeSet`/`TreeMap` key order as a strictly increasing sequence.
- `Xml`: an NCBI record as an element tree, with the DOM/`XmlUtils` lookups the source uses.
- `Streams`: a `PrintWriter` as an append-only list of lines, plus the FASTQ file names.

Where the Java code changes state, the model does too:

- Sample streams, the downloader, the consumer, the fetch processor, the reporters and the iterators are classes whose methods update their fields.
- Each such method is proved against a specification function, and the properties are proved about those functions.

Three places in the code differ from what the authors evidently intended. They are listed under "## Findings". The model keeps each as-written behaviour next to the corrected one, and the rest of the model uses the corrected one.

## Model


| member | source | states |
|---|---|---|
| SeqPart.MatchesIsEquivalence | src/main/java/org/theseed/ncbi/download/SeqPart.java:83-85 | `matches` (id equality) is reflexive, symmetric and transitive |
| SeqPart.ReadRecord | src/main/java/org/theseed/ncbi/download/SeqPart.java:43-65 | A read succeeds iff four lines remain, the header is accepted and the third line starts with '+'. On success the record is the four lines verbatim, with the classifier's id and role, and four lines are consumed. Each error is pinned down: an exhausted iterator is NoSuchElement with nothing consumed; a rejected header is the classifier's error after one line; an empty quality header is the StringIndexOutOfBoundsException of `charAt(0)` after three lines, a runtime exception and not the IOException the method's comment promises; a bad quality header is the invalid-quality IOError after three lines; a short record is the end-of-file IOError |
| SeqPart.Read | src/main/java/org/theseed/ncbi/download/SeqPart.java:43-65 | The line-by-line reader returns what `ReadRecord` gives on the iterator's remaining lines, and advances the iterator by exactly the consumed count |
| SeqPart.LineIterator.Next | src/main/java/org/theseed/ncbi/download/SeqPart.java:45-60 | `iter.next()` yields the next line and advances by one, or raises NoSuchElement and stays put |
| SeqPart.Write | src/main/java/org/theseed/ncbi/download/SeqPart.java:92-95 | Writing appends exactly the record's lines, in order, to the stream |
| PairedReadSample.MatchRestSplit | src/main/java/org/theseed/ncbi/download/PairedReadSample.java:35 | The tail `\s+.+` of the paired pattern matches iff it is a non-empty whitespace run followed by a non-empty, line-terminator-free rest |
| PairedReadSample.PairedAcceptsIffMatch | src/main/java/org/theseed/ncbi/download/PairedReadSample.java:35 | The hand-written recogniser accepts a header iff the regex `@(\S+)(\.[12])\s+.+` has a match, and every match splits the token at the same place |
| PairedReadSample.MatchGroups | src/main/java/org/theseed/ncbi/download/PairedReadSample.java:35 | In any match, group 1 is the whitespace-free token minus its final `.1`/`.2` |
| PairedReadSample.ProcessHeader | src/main/java/org/theseed/ncbi/download/PairedReadSample.java:54-59 | Corrected classifier: Ok iff the pattern matches; otherwise the paired-header IOError with the header abbreviated to 30 characters; the role is LEFT for `.1` and RIGHT for `.2` and never SINGLETON; the id is the token without its suffix |
| PairedReadSample.ProcessHeaderAsWritten | src/main/java/org/theseed/ncbi/download/PairedReadSample.java:58 | The classifier as written accepts the same headers as the corrected one |
| PairedReadSample.AsWrittenNeverLeft | src/main/java/org/theseed/ncbi/download/PairedReadSample.java:58 | As written, every accepted header is classified RIGHT, including those ending in `.1`; the id agrees with the corrected classifier's |
| PairedReadSample.AsWrittenMisclassifiesLeft | src/main/java/org/theseed/ncbi/download/PairedReadSample.java:54-60 | `@S1.1 x` is LEFT for the corrected classifier and RIGHT as written |
| PairedReadSample.PairedReadSample.constructor | src/main/java/org/theseed/ncbi/download/PairedReadSample.java:45-51 | A new paired sample has all three streams unopened |
| PairedReadSample.PairedReadSample.OpenStreams | src/main/java/org/theseed/ncbi/download/PairedReadSample.java:63-71 | Opens the `_1` and `_2` files, leaves the singleton stream unopened, and saves the directory and zip flag |
| PairedReadSample.PairedReadSample.WritePair | src/main/java/org/theseed/ncbi/download/PairedReadSample.java:74-77 | The left read goes to `_1` and the right read to `_2`; the singleton stream is untouched |
| PairedReadSample.PairedReadSample.WriteSingle | src/main/java/org/theseed/ncbi/download/PairedReadSample.java:80-90 | The first single opens `_s` and writes to it; later singles append to that same stream; the pair streams are untouched |
| PairedReadSample.PairedReadSample.FlushStreams | src/main/java/org/theseed/ncbi/download/PairedReadSample.java:93-98 | Flushes both pair streams, and the singleton stream only if it was opened |
| PairedReadSample.PairedReadSample.CloseStreams | src/main/java/org/theseed/ncbi/download/PairedReadSample.java:101-108 | Closes each opened stream and never touches an unopened one |
| SingleReadSample.SingleAcceptsIffMatch | src/main/java/org/theseed/ncbi/download/SingleReadSample.java:29 | The recogniser accepts a header iff `@(\S+).*` matches it, and then the greedy group is the maximal non-whitespace run after '@' |
| SingleReadSample.ProcessHeader | src/main/java/org/theseed/ncbi/download/SingleReadSample.java:45-50 | Ok iff the pattern matches, otherwise the single-header IOError with the abbreviated header. The role is SINGLETON. The id is non-empty and whitespace-free, follows '@', and is maximal |
| SingleReadSample.SingleReadSample.constructor | src/main/java/org/theseed/ncbi/download/SingleReadSample.java:38-41 | A new single-read sample has no open stream |
| SingleReadSample.SingleReadSample.OpenStreams | src/main/java/org/theseed/ncbi/download/SingleReadSample.java:53-56 | Exactly one file is opened, with an empty suffix |
| SingleReadSample.SingleReadSample.WritePair | src/main/java/org/theseed/ncbi/download/SingleReadSample.java:59-63 | Appends the left read and then the right read to the one stream |
| SingleReadSample.SingleReadSample.WriteSingle | src/main/java/org/theseed/ncbi/download/SingleReadSample.java:66-68 | Appends the read to the same stream |
| SingleReadSample.SingleReadSample.FlushStreams | src/main/java/org/theseed/ncbi/download/SingleReadSample.java:71-74 | Flushes the one stream |
| SingleReadSample.SingleReadSample.CloseStreams | src/main/java/org/theseed/ncbi/download/SingleReadSample.java:77-81 | Closes the stream if it was opened, and does nothing otherwise |
| Streams.FileNamesDistinct | src/main/java/org/theseed/ncbi/download/ReadSample.java:211-215 | File names are id + suffix + `.fastq`, plus `.gz` when zipped, so the `_1`, `_2`, `_s` and single files of a sample never collide |
| ReadSample.HeaderProcessor | src/main/java/org/theseed/ncbi/download/ReadSample.java:119 | A paired sample classifies headers with the paired recogniser and a single sample with the single one |
| ReadSample.LayoutOf | src/main/java/org/theseed/ncbi/download/ReadSample.java:69-79 | A missing LIBRARY_LAYOUT is a TagNotFound error; otherwise the layout is paired iff it has a PAIRED child |
| ReadSample.GetSampleId | src/main/java/org/theseed/ncbi/download/ReadSample.java:91-94 | The SAMPLE's accession, or an error iff there is no SAMPLE |
| ReadSample.GetRunId | src/main/java/org/theseed/ncbi/download/ReadSample.java:105-108 | The RUN's accession, or an error iff there is no RUN |
| ReadSample.JavaSpots | src/main/java/org/theseed/ncbi/download/ReadSample.java:140 | The `int` spot field is the exact total wrapped to 32 bits, so it lies in the `int` range |
| ReadSample.AddRunTo | src/main/java/org/theseed/ncbi/download/ReadSample.java:138-140 | Adding a run keeps the run set ordered and duplicate-free, and the new set is the old one plus the run |
| ReadSample.RunElements | src/main/java/org/theseed/ncbi/download/ReadSample.java:130-131 | The RUN descendants of the RUN_SET; a missing RUN_SET is a TagNotFound error |
| ReadSample.AbsorbUnfold | src/main/java/org/theseed/ncbi/download/ReadSample.java:133-141 | One loop step: an unparsable `total_spots` stops `addRuns` with its NumberFormat error; otherwise the run is added and the loop goes on |
| ReadSample.AbsorbRunsMembers | src/main/java/org/theseed/ncbi/download/ReadSample.java:128-142 | The run set never shrinks and gains only runs of the batch. When every spot count parses, it is exactly the old set plus the batch's run ids. The merge passes iff every spot count parses |
| ReadSample.AbsorbKnown | src/main/java/org/theseed/ncbi/download/ReadSample.java:138-140 | A batch of runs that are all already present changes neither runs nor spots |
| ReadSample.AbsorbIdempotent | src/main/java/org/theseed/ncbi/download/ReadSample.java:138-140 | Applying the same batch a second time changes nothing |
| ReadSample.AbsorbOrderFree | src/main/java/org/theseed/ncbi/download/ReadSample.java:133-141 | Two batches with the same run ids, all of whose spot counts parse, give the same run set, whatever their order |
| ReadSample.AbsorbConcat | src/main/java/org/theseed/ncbi/download/ReadSample.java:133-141 | Absorbing one batch and then another is absorbing their concatenation |
| ReadSample.AbsorbFreshSum | src/main/java/org/theseed/ncbi/download/ReadSample.java:136-140 | A batch of distinct, new runs adds exactly the sum of their spot counts, so no spots are counted twice |
| ReadSample.CreateSpec | src/main/java/org/theseed/ncbi/download/ReadSample.java:69-79 | Creation succeeds iff there is a layout and the first batch merges. The new sample has the given id and that layout, and its runs and spots are the first batch absorbed into an empty sample |
| ReadSample.CreateRuns | src/main/java/org/theseed/ncbi/download/ReadSample.java:51-59 | A created sample's runs are exactly the run ids of its package |
| ReadSample.ReadSample.constructor | src/main/java/org/theseed/ncbi/download/ReadSample.java:51-56 | A new sample starts with no runs and zero spots |
| ReadSample.ReadSample.AddRun | src/main/java/org/theseed/ncbi/download/ReadSample.java:138-140 | The object's run set and spot tally become `AddRunTo` of the old ones, so the sample stays valid and gains exactly the run |
| ReadSample.ReadSample.AddRuns | src/main/java/org/theseed/ncbi/download/ReadSample.java:128-142 | The loop leaves the sample in the state `AddRunsSpec` gives, and returns the same outcome |
| ReadSample.Create | src/main/java/org/theseed/ncbi/download/ReadSample.java:69-79 | Returns a fresh sample described by `CreateSpec`, or that function's error |
| NcbiDownloader.WriteSingletonTo | src/main/java/org/theseed/ncbi/download/NcbiDownloader.java:350-353 | A singleton write keeps all three files writable |
| NcbiDownloader.WritePairTo | src/main/java/org/theseed/ncbi/download/NcbiDownloader.java:212-216 | A pair write keeps all three files writable |
| NcbiDownloader.RouteBuffer | src/main/java/org/theseed/ncbi/download/NcbiDownloader.java:133-167 | After each record: a LEFT is buffered; a RIGHT empties the buffer; a SINGLETON leaves it as it was. `readCount` rises by one. `errorCount` rises by one exactly for a LEFT over a full buffer or an unmatched RIGHT. `pairCount` rises by one exactly for a RIGHT that matches the buffered left read, and the two are then written as that pair. `singleCount` rises by one for the read itself when it is a SINGLETON or an unpaired RIGHT, and by one more for a buffered left read that is displaced |
| NcbiDownloader.RouteWrites | src/main/java/org/theseed/ncbi/download/NcbiDownloader.java:136-167 | The exact files after each unpaired branch: a SINGLETON, or a RIGHT with nothing buffered, is one singleton write; an unmatched RIGHT writes the buffered left read and then itself as singletons and counts an error; a LEFT over a full buffer writes the old read as a singleton and counts an error; a LEFT over an empty buffer writes nothing |
| NcbiDownloader.RouteConserves | src/main/java/org/theseed/ncbi/download/NcbiDownloader.java:136-168 | Routing a read moves exactly its lines, and those of any displaced buffered read, into the three files: the multiset of lines written plus the buffered read grows by the read's lines |
| NcbiDownloader.RoutePaired | src/main/java/org/theseed/ncbi/download/NcbiDownloader.java:147-151 | A pair is written only as a buffered LEFT read and its RIGHT mate, at the same position of the left and right files, and only a LEFT read is ever buffered |
| NcbiDownloader.LeftThenRight | src/main/java/org/theseed/ncbi/download/NcbiDownloader.java:147-167 | From an empty buffer, a LEFT followed by its matching RIGHT writes exactly one pair and empties the buffer |
| NcbiDownloader.RouteBalanced | src/main/java/org/theseed/ncbi/download/NcbiDownloader.java:136-168 | Each record adds one to two per pair plus the singletons plus the buffered read, so every record read is written exactly once or is buffered |
| NcbiDownloader.ConsumeBalanced | src/main/java/org/theseed/ncbi/download/NcbiDownloader.java:126-179 | The same balance holds across the whole consumer loop |
| NcbiDownloader.RouteLines | src/main/java/org/theseed/ncbi/download/NcbiDownloader.java:136-168 | Each record routed keeps the files at four lines per pair in `_1` and `_2`, and four lines per singleton in `_s` |
| NcbiDownloader.ConsumeLines | src/main/java/org/theseed/ncbi/download/NcbiDownloader.java:126-179 | The same file-size invariant holds across the consumer loop |
| NcbiDownloader.ConsumeConserves | src/main/java/org/theseed/ncbi/download/NcbiDownloader.java:126-179 | Over a dump output, the lines written plus the buffered read are the lines read: exactly the whole input when it is drained, a sub-multiset of it when a bad record ends the loop |
| NcbiDownloader.ConsumePaired | src/main/java/org/theseed/ncbi/download/NcbiDownloader.java:126-179 | Across the consumer loop, the i-th record added to the left file is a LEFT read and the i-th added to the right file is the RIGHT read with the same id |
| NcbiDownloader.DroppedLeftRead | src/main/java/org/theseed/ncbi/download/NcbiDownloader.java:130-174 | A left read still buffered at end of stream is never written: the files hold four lines for every record read except that one |
| NcbiDownloader.RouteAsWritten | src/main/java/org/theseed/ncbi/download/NcbiDownloader.java:152-157 | The loop step as written keeps the files writable |
| NcbiDownloader.AsWrittenUnmatchedRight | src/main/java/org/theseed/ncbi/download/NcbiDownloader.java:152-157 | As written, an unmatched RIGHT writes the left and then the right as singletons, adds one error, and leaves the old left read in the buffer |
| NcbiDownloader.AsWrittenWritesTwice | src/main/java/org/theseed/ncbi/download/NcbiDownloader.java:152-157 | As written, the records L(a), R(b), R(a) write read a twice (as a singleton and in a pair). The corrected step writes each record once |
| NcbiDownloader.Route | src/main/java/org/theseed/ncbi/download/NcbiDownloader.java:136-168 | The corrected loop step keeps the files writable; `RouteBuffer`, `RouteBalanced`, `RouteLines`, `RouteConserves` and `RoutePaired` state its effect |
| NcbiDownloader.Consume | src/main/java/org/theseed/ncbi/download/NcbiDownloader.java:126-179 | The consumer loop keeps the files writable; its balance, file sizes, contents and pairing are stated by `ConsumeBalanced`, `ConsumeLines`, `ConsumeConserves` and `ConsumePaired` |
| NcbiDownloader.FormatCommand | src/main/java/org/theseed/ncbi/download/NcbiDownloader.java:312-322 | An unknown SRA toolkit directory is the SRALIB IOError. Otherwise the command has nine words: the `fastq-dump` path first and the run last |
| NcbiDownloader.FormatCommandInjective | src/main/java/org/theseed/ncbi/download/NcbiDownloader.java:316-319 | The commands for two runs share their first eight words, and they are equal iff the runs are equal |
| NcbiDownloader.FlushAll | src/main/java/org/theseed/ncbi/download/NcbiDownloader.java:291-293 | Flushing keeps the three files writable |
| NcbiDownloader.RunStep | src/main/java/org/theseed/ncbi/download/NcbiDownloader.java:270-301 | One run downloaded keeps the files writable |
| NcbiDownloader.RunAll | src/main/java/org/theseed/ncbi/download/NcbiDownloader.java:251-258 | The run loop keeps the files writable |
| NcbiDownloader.RunAllCount | src/main/java/org/theseed/ncbi/download/NcbiDownloader.java:254-258 | A completed download counts every run once. A failed one stops at the failing run, which is counted |
| NcbiDownloader.NoToolkit | src/main/java/org/theseed/ncbi/download/NcbiDownloader.java:314-315 | Without the toolkit directory, the first run fails with the SRALIB error and nothing is written |
| NcbiDownloader.RunAllAccounting | src/main/java/org/theseed/ncbi/download/NcbiDownloader.java:251-301 | Across all runs the write count (two per pair, one per singleton) never exceeds the count of records read. The files stay writable and grow by four lines per pair or singleton counted |
| NcbiDownloader.StepConserves | src/main/java/org/theseed/ncbi/download/NcbiDownloader.java:270-301 | One run adds to the files only lines that its dump output yielded, each no more often than it was yielded |
| NcbiDownloader.RunAllConserves | src/main/java/org/theseed/ncbi/download/NcbiDownloader.java:251-301 | Across all runs no line is written more often than the dump processes yielded it, so no record is written twice |
| NcbiDownloader.RunAllPaired | src/main/java/org/theseed/ncbi/download/NcbiDownloader.java:251-301 | Across all runs the left and right files stay in step: position by position they hold a LEFT read and its RIGHT mate |
| NcbiDownloader.NcbiDownloader.constructor | src/main/java/org/theseed/ncbi/download/NcbiDownloader.java:83-102 | Runs are sorted and deduplicated. The three files are opened. All counters start at zero. The summary is the initialisation message |
| NcbiDownloader.NcbiDownloader.WritePair | src/main/java/org/theseed/ncbi/download/NcbiDownloader.java:212-216 | Writes to the left and right files and adds one to `pairCount`, as `WritePairTo` |
| NcbiDownloader.NcbiDownloader.WriteSingleton | src/main/java/org/theseed/ncbi/download/NcbiDownloader.java:350-353 | Writes to the singleton file and adds one to `singleCount`, as `WriteSingletonTo` |
| NcbiDownloader.NcbiDownloader.DownloadRun | src/main/java/org/theseed/ncbi/download/NcbiDownloader.java:270-301 | The files and counters after one run are `RunStep` of the old ones, and the outcome is its outcome |
| NcbiDownloader.NcbiDownloader.FlushFiles | src/main/java/org/theseed/ncbi/download/NcbiDownloader.java:291-293 | The three files are flushed and nothing else changes: the object state becomes `FlushAll` of the old one |
| NcbiDownloader.NcbiDownloader.Execute | src/main/java/org/theseed/ncbi/download/NcbiDownloader.java:251-262 | The object ends in the state `RunAll` gives over the sorted run list. On success the summary reports the run, pair, singleton and error counts |
| NcbiDownloader.NcbiDownloader.Close | src/main/java/org/theseed/ncbi/download/NcbiDownloader.java:325-332 | Closes the three files and changes no counter |
| NcbiDownloader.SeqConsumer.constructor | src/main/java/org/theseed/ncbi/download/NcbiDownloader.java:120-123 | A new consumer has an empty buffer |
| NcbiDownloader.SeqConsumer.Dispatch | src/main/java/org/theseed/ncbi/download/NcbiDownloader.java:134-168 | The switch on the read type updates the buffer and the downloader as `Route` does |
| NcbiDownloader.SeqConsumer.Run | src/main/java/org/theseed/ncbi/download/NcbiDownloader.java:126-179 | The loop leaves the buffer and the downloader as `Consume` does on the iterator's remaining lines |
| NcbiFetchProcessor.ValidateBatchSize | src/main/java/org/theseed/ncbi/utils/NcbiFetchProcessor.java:145-146 | A batch size below 1 is the batch-size error |
| NcbiFetchProcessor.PartitionStep | src/main/java/org/theseed/ncbi/utils/NcbiFetchProcessor.java:188-191 | An id whose third character is 'R' goes to the run set and any other to the sample set; both stay sorted and deduplicated |
| NcbiFetchProcessor.FirstShortId | src/main/java/org/theseed/ncbi/utils/NcbiFetchProcessor.java:186-187 | The position of the first id shorter than 4 characters |
| NcbiFetchProcessor.NcbiFetchProcessor.ValidateReaderParms | src/main/java/org/theseed/ncbi/utils/NcbiFetchProcessor.java:143-169 | The batch size is checked, and on success the three counters are reset |
| NcbiFetchProcessor.NcbiFetchProcessor.ValidateReaderInput | src/main/java/org/theseed/ncbi/utils/NcbiFetchProcessor.java:172-194 | Succeeds iff no id is shorter than 4 characters; otherwise the error names the first short id. On success the run and sample sets partition the ids by their third character. Both sets are sorted |
| Util.ChunksFlatten | src/main/java/org/theseed/ncbi/utils/NcbiFetchProcessor.java:222-231 | Concatenating the batches of the fill-then-flush loop gives the input back, so every accession is in exactly one batch, in order |
| Util.ChunksSizes | src/main/java/org/theseed/ncbi/utils/NcbiFetchProcessor.java:222-231 | Each batch holds 1 to the batch size ids, all but the last are full, and an empty set gives no batches |
| NcbiFetchProcessor.NcbiFetchProcessor.AnalyzeAccessions | src/main/java/org/theseed/ncbi/utils/NcbiFetchProcessor.java:220-232 | The loop sends exactly the batches `Chunks` forms and merges them as `MergeBatches` does |
| NcbiFetchProcessor.MergeExp | src/main/java/org/theseed/ncbi/utils/NcbiFetchProcessor.java:249-260 | Merging one package keeps every sample description valid |
| NcbiFetchProcessor.MergeExpExtends | src/main/java/org/theseed/ncbi/utils/NcbiFetchProcessor.java:252-260 | A merge never loses a sample or a run. It adds only the package's id, and after a successful merge that id is present |
| NcbiFetchProcessor.MergeExpRuns | src/main/java/org/theseed/ncbi/utils/NcbiFetchProcessor.java:252-260 | A new id is created from the package; a known one absorbs the package's runs |
| NcbiFetchProcessor.MergeAllPair | src/main/java/org/theseed/ncbi/utils/NcbiFetchProcessor.java:249-261 | Packages are merged in order: two packages merge as the first followed by the second |
| NcbiFetchProcessor.SecondPackageAddsRuns | src/main/java/org/theseed/ncbi/utils/NcbiFetchProcessor.java:252-260 | The first package for an id creates the sample; a second one for the same id adds its runs to that sample |
| NcbiFetchProcessor.MergeAllStep | src/main/java/org/theseed/ncbi/utils/NcbiFetchProcessor.java:249-261 | The first failing package ends the batch; otherwise the rest is merged into the new map |
| NcbiFetchProcessor.MergeAllExtends | src/main/java/org/theseed/ncbi/utils/NcbiFetchProcessor.java:249-261 | A batch of packages never loses a sample or a run |
| NcbiFetchProcessor.MergeBatchesStep | src/main/java/org/theseed/ncbi/utils/NcbiFetchProcessor.java:224-231 | A failing batch ends the analysis; otherwise the remaining batches follow |
| NcbiFetchProcessor.MergeBatchesExtends | src/main/java/org/theseed/ncbi/utils/NcbiFetchProcessor.java:220-232 | Analysing an accession set never loses a sample or a run |
| NcbiFetchProcessor.ExtendsTransitive | src/main/java/org/theseed/ncbi/utils/NcbiFetchProcessor.java:197-203 | Growth of the sample map composes across successive analyses |
| NcbiFetchProcessor.ReaderMergeExtends | src/main/java/org/theseed/ncbi/utils/NcbiFetchProcessor.java:197-203 | Analysing the samples and then the runs never loses a sample or a run |
| NcbiFetchProcessor.NcbiFetchProcessor.AddNewSample | src/main/java/org/theseed/ncbi/utils/NcbiFetchProcessor.java:253-256 | `create` stores a fresh sample under the id with the description `CreateSpec` gives; on error nothing changes |
| NcbiFetchProcessor.NcbiFetchProcessor.ExtendSample | src/main/java/org/theseed/ncbi/utils/NcbiFetchProcessor.java:257-260 | `addRuns` on the stored sample changes only that sample's runs and spots, as `AddRunsSpec` says |
| NcbiFetchProcessor.NcbiFetchProcessor.AddPackage | src/main/java/org/theseed/ncbi/utils/NcbiFetchProcessor.java:249-260 | The sample map after one package is `MergeExp` of the old one |
| NcbiFetchProcessor.NcbiFetchProcessor.ProcessAccessionBatch | src/main/java/org/theseed/ncbi/utils/NcbiFetchProcessor.java:244-262 | The sample map after one batch is `MergeBatch` of the old one |
| NcbiFetchProcessor.NcbiFetchProcessor.SendBatch | src/main/java/org/theseed/ncbi/utils/NcbiFetchProcessor.java:224-231 | Sending one batch is the first step of `MergeBatches` |
| NcbiFetchProcessor.MarkerPathsDistinct | src/main/java/org/theseed/ncbi/utils/NcbiFetchProcessor.java:272-274 | Different samples have different marker files |
| NcbiFetchProcessor.InitialTallies | src/main/java/org/theseed/ncbi/utils/NcbiFetchProcessor.java:283 | A new downloader's three files are open and writable |
| NcbiFetchProcessor.DownloadResult | src/main/java/org/theseed/ncbi/utils/NcbiFetchProcessor.java:283-289 | A download attempt either succeeds (with the summary) or fails. It is never a skip |
| NcbiFetchProcessor.ProcessSampleSpec | src/main/java/org/theseed/ncbi/utils/NcbiFetchProcessor.java:275-277 | With the missing-only flag set and the marker present, the sample is skipped |
| NcbiFetchProcessor.DownloadedCountsRuns | src/main/java/org/theseed/ncbi/utils/NcbiFetchProcessor.java:283-288 | A downloaded sample's summary reports its number of runs and the download's final pair, singleton and error counts |
| NcbiFetchProcessor.NoToolkitFails | src/main/java/org/theseed/ncbi/utils/NcbiFetchProcessor.java:291-294 | Without the toolkit, a sample with runs that is not skipped fails |
| NcbiFetchProcessor.NcbiFetchProcessor.ProcessSample | src/main/java/org/theseed/ncbi/utils/NcbiFetchProcessor.java:269-295 | The result is `ProcessSampleSpec`. The marker is written only after a successful download. Exactly one of the download, skip and fail counters rises by one |
| NcbiFetchProcessor.NcbiFetchProcessor.Download | src/main/java/org/theseed/ncbi/utils/NcbiFetchProcessor.java:283-289 | The downloader's outcome is `DownloadResult` |
| NcbiFetchProcessor.ProcessSampleLocal | src/main/java/org/theseed/ncbi/utils/NcbiFetchProcessor.java:275 | A sample's outcome depends only on whether its own marker exists |
| NcbiFetchProcessor.MarkStep | src/main/java/org/theseed/ncbi/utils/NcbiFetchProcessor.java:287 | Marking one sample leaves every other sample's marker as it was |
| NcbiFetchProcessor.ResultsAgreeStep | src/main/java/org/theseed/ncbi/utils/NcbiFetchProcessor.java:205 | Adding one sample's result keeps every recorded result equal to its specification |
| NcbiFetchProcessor.ProcessedStep | src/main/java/org/theseed/ncbi/utils/NcbiFetchProcessor.java:269-295 | The loop invariant of the per-sample loop is kept by one more sample |
| NcbiFetchProcessor.NcbiFetchProcessor.ProcessOne | src/main/java/org/theseed/ncbi/utils/NcbiFetchProcessor.java:269-295 | One sample processed keeps the invariant and adds exactly one to the sum of the counters |
| NcbiFetchProcessor.NcbiFetchProcessor.ProcessAll | src/main/java/org/theseed/ncbi/utils/NcbiFetchProcessor.java:205 | Every sample is processed once, sequentially. Each result agrees with its specification. The counters' sum rises by the number of samples |
| NcbiFetchProcessor.NcbiFetchProcessor.RunReader | src/main/java/org/theseed/ncbi/utils/NcbiFetchProcessor.java:197-207 | The samples are analysed, then the runs (as `ReaderMerge`). An analysis error leaves markers and counters alone; otherwise every sample is processed once |
| NcbiTableReporter.MatchCount | src/main/java/org/theseed/ncbi/reports/NcbiTableReporter.java:338 | The number of patterns found is at most the number of patterns |
| NcbiTableReporter.MatchCountAll | src/main/java/org/theseed/ncbi/reports/NcbiTableReporter.java:338 | Every pattern is counted iff every pattern is found |
| NcbiTableReporter.MatchCountNone | src/main/java/org/theseed/ncbi/reports/NcbiTableReporter.java:338 | No pattern found gives a count of zero |
| NcbiTableReporter.FirstBadPattern | src/main/java/org/theseed/ncbi/reports/NcbiTableReporter.java:142-149 | The position of the first pattern that does not compile |
| NcbiTableReporter.TableReporter.constructor | src/main/java/org/theseed/ncbi/reports/NcbiTableReporter.java:127-129 | A new reporter has its table, no keywords and an empty report |
| NcbiTableReporter.TableReporter.SetupKeywordFiltering | src/main/java/org/theseed/ncbi/reports/NcbiTableReporter.java:138-158 | Succeeds iff every pattern compiles and 0 <= mode <= the pattern count. Otherwise it fails with the first bad pattern's syntax message, the negative-mode error or the too-large error. A mode of 0 sets the threshold to the pattern count |
| NcbiTableReporter.TableReporter.CheckAbstract | src/main/java/org/theseed/ncbi/reports/NcbiTableReporter.java:333-342 | With no positive threshold every record is kept; otherwise a record is kept iff at least the threshold of patterns are found |
| NcbiTableReporter.AllModeKeepsIffAllFound | src/main/java/org/theseed/ncbi/reports/NcbiTableReporter.java:151-153 | Mode 0 (threshold = pattern count) keeps a record iff every pattern is found |
| NcbiTableReporter.NoMatchRejected | src/main/java/org/theseed/ncbi/reports/NcbiTableReporter.java:337-339 | With a positive threshold, an abstract no pattern matches is dropped |
| NcbiTableReporter.TableReporter.OpenReport | src/main/java/org/theseed/ncbi/reports/NcbiTableReporter.java:165-170 | The report starts with the header line when there is one, and empty otherwise |
| NcbiTableReporter.TableReporter.WriteLine | src/main/java/org/theseed/ncbi/reports/NcbiTableReporter.java:218-220 | Appends the tab-joined columns as one line |
| NcbiTableReporter.TableReporter.WriteString | src/main/java/org/theseed/ncbi/reports/NcbiTableReporter.java:227-229 | Appends the string as one line |
| NcbiTableReporter.FormatLine | src/main/java/org/theseed/ncbi/reports/NcbiTableReporter.java:205-211 | Slot i is overwritten with the map's value for `headers[i]` when the map has one. Every other slot, and every slot past the headers, is unchanged |
| NcbiTableReporter.Row | src/main/java/org/theseed/ncbi/reports/NcbiTableReporter.java:205-211 | One column per header: its map value, or "" when absent |
| NcbiTableReporter.PutEach | src/main/java/org/theseed/ncbi/reports/NcbiTableReporter.java:242-246 | The loop over the helper map puts every header the helper names and no other key. Each header holds the looked-up value of a key that maps to it |
| NcbiTableReporter.ProcessAttributes | src/main/java/org/theseed/ncbi/reports/NcbiTableReporter.java:240-247 | Every helper header gets an attribute value, with "" for a missing attribute. The map gains exactly the helper's headers; other keys are untouched |
| NcbiTableReporter.ProcessTags | src/main/java/org/theseed/ncbi/reports/NcbiTableReporter.java:258-264 | Every helper header gets the text of the first descendant with its tag, or "". The map gains exactly the helper's headers |
| NcbiTableReporter.FirstChildTag | src/main/java/org/theseed/ncbi/reports/NcbiTableReporter.java:315-321 | The tag of the first child of the first element with the tag, or "" when there is no such element |
| NcbiTableReporter.ProcessTagTags | src/main/java/org/theseed/ncbi/reports/NcbiTableReporter.java:312-324 | Every helper header gets `FirstChildTag`'s value. The map gains exactly the helper's headers |
| NcbiTableReporter.FilledExact | src/main/java/org/theseed/ncbi/reports/NcbiTableReporter.java:242-246 | A header only one key maps to holds that key's value |
| NcbiTableReporter.FilledSingle | src/main/java/org/theseed/ncbi/reports/NcbiTableReporter.java:242-246 | A one-entry helper map updates exactly one header |
| NcbiTableReporter.FilledPair | src/main/java/org/theseed/ncbi/reports/NcbiTableReporter.java:242-246 | A two-entry helper map to distinct headers updates exactly those two |
| NcbiTableReporter.ProcessKeyValuePairs | src/main/java/org/theseed/ncbi/reports/NcbiTableReporter.java:279-301 | Every helper header becomes a key. Each holds the value of the last child whose stripped key text maps to it; failing that its old value; failing that "". Other keys are untouched |
| NcbiTableReporter.LastFeed | src/main/java/org/theseed/ncbi/reports/NcbiTableReporter.java:283-295 | The last child whose key feeds a header, with no later child feeding it |
| NcbiTableReporter.StoreChildren | src/main/java/org/theseed/ncbi/reports/NcbiTableReporter.java:283-295 | The child loop gives the map `StoreAll` describes |
| NcbiTableReporter.StoreAllInv | src/main/java/org/theseed/ncbi/reports/NcbiTableReporter.java:283-295 | After any prefix of the children, each header holds the last value fed to it so far |
| NcbiTableReporter.PutMissing | src/main/java/org/theseed/ncbi/reports/NcbiTableReporter.java:297-300 | Missing headers are added with "" and present ones keep their value |
| NcbiTableReporter.CleanHtml | src/main/java/org/theseed/ncbi/reports/NcbiTableReporter.java:351-354 | Removing tags never lengthens the text |
| NcbiTableReporter.CleanHtmlDropsTag | src/main/java/org/theseed/ncbi/reports/NcbiTableReporter.java:41 | A leading `<...>` span with no '>' or line break inside is removed entirely |
| NcbiTableReporter.CleanHtmlPlain | src/main/java/org/theseed/ncbi/reports/NcbiTableReporter.java:351-354 | Text without '<' is unchanged |
| NcbiTableReporter.CleanHtmlOpenStretch | src/main/java/org/theseed/ncbi/reports/NcbiTableReporter.java:41 | A stretch with no '>' and no line break that runs up to a line break or the end is kept verbatim, so an unclosed '<' is not removed |
| NcbiTableReporter.CleanHtmlNoTag | src/main/java/org/theseed/ncbi/reports/NcbiTableReporter.java:351-354 | The result holds no complete tag (a '<' closed by '>' before any line break) |
| NcbiTableReporter.CleanHtmlFixed | src/main/java/org/theseed/ncbi/reports/NcbiTableReporter.java:351-354 | Text with no complete tag is unchanged |
| NcbiTableReporter.CleanHtmlIdempotent | src/main/java/org/theseed/ncbi/reports/NcbiTableReporter.java:351-354 | Cleaning twice is cleaning once |
| NcbiProjectReporter.ProjectRecord | src/main/java/org/theseed/ncbi/reports/NcbiProjectReporter.java:76-112 | A record is stored iff it has a STUDY and `checkAbstract(title + "\t" + abstract)` keeps it; what is stored is the package's output map |
| NcbiProjectReporter.RecordContents | src/main/java/org/theseed/ncbi/reports/NcbiProjectReporter.java:88-91 | The stored map holds the study accession, the alias as project, the cleaned title and the cleaned abstract |
| NcbiProjectReporter.RecordOrganism | src/main/java/org/theseed/ncbi/reports/NcbiProjectReporter.java:93-101 | The organism comes from the SAMPLE's scientific name when that is non-blank, and otherwise from the POOL's attribute |
| NcbiProjectReporter.RecordColumns | src/main/java/org/theseed/ncbi/reports/NcbiProjectReporter.java:88-109 | Every key of the stored map is one of the headings |
| NcbiProjectReporter.RecordTextsClean | src/main/java/org/theseed/ncbi/reports/NcbiProjectReporter.java:82-83 | The stored title and description hold no HTML tag |
| NcbiProjectReporter.BuildFields | src/main/java/org/theseed/ncbi/reports/NcbiProjectReporter.java:88-109 | The map-building steps give the map `RecordFields` describes |
| NcbiProjectReporter.ProjectReporter.constructor | src/main/java/org/theseed/ncbi/reports/NcbiProjectReporter.java:62-68 | A new report over the SRA table has an empty project map |
| NcbiProjectReporter.ProjectReporter.WriteRecord | src/main/java/org/theseed/ncbi/reports/NcbiProjectReporter.java:76-114 | A kept record is stored under its accession and replaces any earlier record with that accession; otherwise the map is unchanged |
| NcbiProjectReporter.ReportKeysPermutation | src/main/java/org/theseed/ncbi/reports/NcbiProjectReporter.java:124-132 | The report order is a permutation of the accessions: every stored project is written exactly once |
| NcbiProjectReporter.ReportKeysBlankLast | src/main/java/org/theseed/ncbi/reports/NcbiProjectReporter.java:122-132 | The projects with a PubMed id come first: a position holds a blank PubMed iff it lies past the first group |
| NcbiProjectReporter.GroupsSorted | src/main/java/org/theseed/ncbi/reports/NcbiProjectReporter.java:67 | Within each group the projects are in ascending accession order |
| NcbiProjectReporter.PubKeysMembers | src/main/java/org/theseed/ncbi/reports/NcbiProjectReporter.java:125-129 | The first group holds only stored projects with a non-blank PubMed id |
| NcbiProjectReporter.BlankKeysMembers | src/main/java/org/theseed/ncbi/reports/NcbiProjectReporter.java:125-127 | The delay queue holds only projects with a blank PubMed id |
| NcbiProjectReporter.ReportLines | src/main/java/org/theseed/ncbi/reports/NcbiProjectReporter.java:124-132 | The two loops print the lines of the records in the report order |
| NcbiProjectReporter.LinesOfRecords | src/main/java/org/theseed/ncbi/reports/NcbiProjectReporter.java:141-145 | The i-th printed line is the line of the i-th record |
| NcbiProjectReporter.WriteMap | src/main/java/org/theseed/ncbi/reports/NcbiProjectReporter.java:141-145 | The buffer is reset to "" and then filled, so it is exactly the record's row and nothing leaks from the previous line |
| NcbiProjectReporter.WriteAll | src/main/java/org/theseed/ncbi/reports/NcbiProjectReporter.java:131-132 | The delay-queue loop prints each queued record's line in order |
| NcbiProjectReporter.ProjectReporter.WritePublished | src/main/java/org/theseed/ncbi/reports/NcbiProjectReporter.java:124-130 | The first loop prints the records with a PubMed id in key order and returns the others, in key order, as the delay queue |
| NcbiProjectReporter.ProjectReporter.CloseReport | src/main/java/org/theseed/ncbi/reports/NcbiProjectReporter.java:116-133 | The report gains the published records' lines followed by the delayed ones' |
| NcbiProjectTableReporter.FoundIff | src/main/java/org/theseed/ncbi/reports/NcbiProjectTableReporter.java:83-85 | The `found` test passes iff the project or the PubMed column is non-blank |
| NcbiProjectTableReporter.StudyPubmed | src/main/java/org/theseed/ncbi/reports/NcbiProjectTableReporter.java:77-79 | The PubMed column comes from the study links when there are any, and is "" otherwise |
| NcbiProjectTableReporter.RecordLinesCount | src/main/java/org/theseed/ncbi/reports/NcbiProjectTableReporter.java:64-94 | Nothing is written without an EXPERIMENT, a RUN_SET with child nodes and a STUDY, or when both study columns are blank. Otherwise exactly one line per run is written |
| NcbiProjectTableReporter.RecordLinesShape | src/main/java/org/theseed/ncbi/reports/NcbiProjectTableReporter.java:88-93 | Line i is run i's accession followed by the same project and PubMed columns, so only column 0 differs between lines |
| NcbiProjectTableReporter.RunLinesAt | src/main/java/org/theseed/ncbi/reports/NcbiProjectTableReporter.java:89-93 | The i-th run line is the i-th run's accession, a tab, the project, a tab and the PubMed id |
| NcbiProjectTableReporter.ProjectTableReporter.constructor | src/main/java/org/theseed/ncbi/reports/NcbiProjectTableReporter.java:52-54 | A new report over the SRA table has an empty report |
| NcbiProjectTableReporter.ProjectTableReporter.WriteRecord | src/main/java/org/theseed/ncbi/reports/NcbiProjectTableReporter.java:61-97 | The report gains exactly `RecordLines` of the package |
| NcbiProjectTableReporter.ProjectTableReporter.WriteRuns | src/main/java/org/theseed/ncbi/reports/NcbiProjectTableReporter.java:88-93 | The run loop prints one line per run with the run's accession in column 0 |
| NcbiProjectTableReporter.RunMap | src/main/java/org/theseed/ncbi/reports/NcbiProjectTableReporter.java:90 | The run's `processAttributes` updates only `sample_id`, to the run accession |
| NcbiProjectTableReporter.StudyMap | src/main/java/org/theseed/ncbi/reports/NcbiProjectTableReporter.java:75-79 | The study's attributes and links give the map `StudyFields` describes |
| NcbiPubmedReporter.FirstIdFound | src/main/java/org/theseed/ncbi/reports/NcbiPubmedReporter.java:93-99 | The first ArticleId of the type with non-empty text decides the id |
| NcbiPubmedReporter.FirstIdNone | src/main/java/org/theseed/ncbi/reports/NcbiPubmedReporter.java:93-99 | With no such ArticleId, the id is "" |
| NcbiPubmedReporter.FirstIdWitness | src/main/java/org/theseed/ncbi/reports/NcbiPubmedReporter.java:93-99 | A non-empty id is the text of an ArticleId of the type, and no earlier one of that type has text |
| NcbiPubmedReporter.GetArticleId | src/main/java/org/theseed/ncbi/reports/NcbiPubmedReporter.java:85-103 | The loop returns `ArticleId`: "" without PubmedData or ArticleIdList, else the first id of the type that yields text |
| NcbiPubmedReporter.GetDoiUrl | src/main/java/org/theseed/ncbi/reports/NcbiPubmedReporter.java:67-75 | "" for a blank DOI, otherwise the DOI resolver prefix followed by the DOI |
| NcbiPubmedReporter.ArticleLinesKept | src/main/java/org/theseed/ncbi/reports/NcbiPubmedReporter.java:47-49 | At most one line per article, written iff the cleaned abstract passes the keyword filter |
| NcbiPubmedReporter.ArticleRowClean | src/main/java/org/theseed/ncbi/reports/NcbiPubmedReporter.java:47-55 | One column per heading, and the title and abstract columns hold no HTML tag |
| NcbiPubmedReporter.PubmedReporter.constructor | src/main/java/org/theseed/ncbi/reports/NcbiPubmedReporter.java:34-37 | A new report over the PubMed table has an empty report |
| NcbiPubmedReporter.PubmedReporter.WriteRecord | src/main/java/org/theseed/ncbi/reports/NcbiPubmedReporter.java:45-57 | The report gains `ArticleLines`: one line of pubmed, doi_link, pmc_id, title and abstract for a kept article |
| NcbiListProcessor.KeySet | src/main/java/org/theseed/ncbi/utils/NcbiListProcessor.java:86-92 | The key set is strictly sorted |
| NcbiListProcessor.KeySetMembers | src/main/java/org/theseed/ncbi/utils/NcbiListProcessor.java:86-92 | The key set holds exactly the non-blank column values |
| NcbiListProcessor.KeySetSize | src/main/java/org/theseed/ncbi/utils/NcbiListProcessor.java:94 | `keyTotal` is the number of distinct non-blank keys |
| NcbiListProcessor.QueriesPartitionKeys | src/main/java/org/theseed/ncbi/utils/NcbiListProcessor.java:125-133 | The batches concatenate to the key set; each holds 1 to the batch size keys and all but the last are full |
| NcbiListProcessor.ListProcessor.constructor | src/main/java/org/theseed/ncbi/utils/NcbiListProcessor.java:66-71 | A new processor holds its table, key field and batch size, and no keys |
| NcbiListProcessor.ListProcessor.Validate | src/main/java/org/theseed/ncbi/utils/NcbiListProcessor.java:74-107 | The key set is read from the column and the iterator starts over it. The key field is valid iff the table has it; otherwise the error names it |
| NcbiListProcessor.ListProcessor.Next | src/main/java/org/theseed/ncbi/utils/NcbiListProcessor.java:125-133 | The query takes the next keys in order, up to a batch, from where the last one stopped; it is the next batch of the remaining keys |
| NcbiListProcessor.ListProcessor.Queries | src/main/java/org/theseed/ncbi/utils/NcbiListProcessor.java:119-133 | The query loop's id lists are the batches of the remaining keys, and `hasNext` ends false once every key is read |
| NcbiQueryProcessor.LocalDateOf | src/main/java/org/theseed/ncbi/utils/NcbiQueryProcessor.java:138 | `LocalDate.of` succeeds exactly for real calendar dates |
| NcbiQueryProcessor.DigitGroupsSplit | src/main/java/org/theseed/ncbi/utils/NcbiQueryProcessor.java:125-129 | A matched date splits on '-' into one to n non-empty digit runs |
| NcbiQueryProcessor.SinceDateYear | src/main/java/org/theseed/ncbi/utils/NcbiQueryProcessor.java:129-138 | A year alone gives January 1 of that year |
| NcbiQueryProcessor.SinceDateYearMonth | src/main/java/org/theseed/ncbi/utils/NcbiQueryProcessor.java:129-138 | A year and month give the first of that month |
| NcbiQueryProcessor.ParseFormatDate | src/main/java/org/theseed/ncbi/utils/NcbiQueryProcessor.java:148 | `LocalDate.parse` reads back what `toString` writes for a four-digit year |
| NcbiQueryProcessor.ThreeRunsUnmatched | src/main/java/org/theseed/ncbi/utils/NcbiQueryProcessor.java:65 | As written, the pattern never matches three hyphen-separated digit runs |
| NcbiQueryProcessor.AsWrittenRejectsIsoDates | src/main/java/org/theseed/ncbi/utils/NcbiQueryProcessor.java:125-126 | As written, every `YYYY-MM-DD` date is rejected as an invalid since-date |
| NcbiQueryProcessor.AsWrittenRejectsExample | src/main/java/org/theseed/ncbi/utils/NcbiQueryProcessor.java:65-70 | As written, the option's own example `2018-10-20` is rejected |
| NcbiQueryProcessor.SinceDateParsesIsoDates | src/main/java/org/theseed/ncbi/utils/NcbiQueryProcessor.java:123-139 | With the corrected pattern, every `YYYY-MM-DD` date parses to itself |
| NcbiQueryProcessor.SinceFileRoundTrip | src/main/java/org/theseed/ncbi/utils/NcbiQueryProcessor.java:140-150 | The since-date file `postProcess` writes reads back as the same date type and date |
| NcbiQueryProcessor.Criteria | src/main/java/org/theseed/ncbi/utils/NcbiQueryProcessor.java:114-116 | One name/value pair per two filter arguments |
| NcbiQueryProcessor.FirstBadName | src/main/java/org/theseed/ncbi/utils/NcbiQueryProcessor.java:117-119 | The position of the first field name not valid for the table |
| NcbiQueryProcessor.AddCriteria | src/main/java/org/theseed/ncbi/utils/NcbiQueryProcessor.java:114-121 | The filter loop fails on the first invalid name, with its message; otherwise it gives all the criteria in order |
| NcbiQueryProcessor.QueryProcessor.constructor | src/main/java/org/theseed/ncbi/utils/NcbiQueryProcessor.java:90-96 | A new processor holds its options and no query |
| NcbiQueryProcessor.QueryProcessor.Validate | src/main/java/org/theseed/ncbi/utils/NcbiQueryProcessor.java:99-153 | Without filters, a plain query. An odd argument count and a limit below 1 are errors. Then the first bad name is an error. Then the since-date, or else the since file, is checked, and its error is returned. The since-date is checked with the corrected three-group pattern `SinceDate`, not the two-group pattern of line 65 (see "## Findings"). Otherwise the query holds the limit, the criteria and the since clause. `dateType` changes only when the since file is read and splits into two fields, and then to its first field; otherwise the `--dateType` option is kept |
| NcbiQueryProcessor.QueryProcessor.Next | src/main/java/org/theseed/ncbi/utils/NcbiQueryProcessor.java:186-192 | Returns the query and clears it; `hasNext` is false afterwards |
| NcbiQueryProcessor.QueryProcessor.Queries | src/main/java/org/theseed/ncbi/utils/NcbiQueryProcessor.java:181-192 | The query loop yields the one query, if there is one, and then stops |
| NcbiQueryProcessor.QueryProcessor.ProcessSpecial | src/main/java/org/theseed/ncbi/utils/NcbiQueryProcessor.java:156-169 | Returns true iff there are no filters; then it prints the field-list header and the fields, and otherwise prints nothing |
| NcbiQueryProcessor.QueryProcessor.PostProcess | src/main/java/org/theseed/ncbi/utils/NcbiQueryProcessor.java:172-179 | With a since file, writes the date type, a tab and today's date; otherwise writes nothing |
| SortedSets.Insert | src/main/java/org/theseed/ncbi/utils/NcbiListProcessor.java:91 | `TreeSet.add` keeps the set ordered, adds exactly the element, and leaves an existing member's set unchanged |
| SortedSets.SortedUnique | src/main/java/org/theseed/ncbi/reports/NcbiProjectReporter.java:67 | A sorted key sequence is determined by its members |
| Util.Strip | src/main/java/org/theseed/ncbi/reports/NcbiTableReporter.java:288 | `stripToEmpty` never lengthens, leaves no whitespace at either end, and gives "" exactly for a blank string |
| Util.ReplaceChar | src/main/java/org/theseed/ncbi/utils/NcbiQueryProcessor.java:115 | `replaceChars` keeps the length and replaces each occurrence of the character, and only those |
| Util.Abbreviate | src/main/java/org/theseed/ncbi/download/PairedReadSample.java:57 | `abbreviate` is at most the width long and leaves a string that fits unchanged |
| Util.ChunksAt | src/main/java/org/theseed/ncbi/utils/NcbiListProcessor.java:128-131 | The fill loop takes the next full batch, or the short remainder, then continues from where it stopped |
| SortedSets.InsertAll | src/main/java/org/theseed/ncbi/download/NcbiDownloader.java:85-87 | Adding each run to the tree set gives a sorted, duplicate-free set holding exactly the old members and the runs |
| SortedSets.SortedCardinality | src/main/java/org/theseed/ncbi/utils/NcbiListProcessor.java:94 | A sorted set's size is the number of its distinct members |
| Xml.GetFirst | src/main/java/org/theseed/ncbi/download/ReadSample.java:71 | `getFirstByTagName` gives the first descendant with the tag, and a TagNotFound error iff there is none |
| Streams.Open | src/main/java/org/theseed/ncbi/download/ReadSample.java:211-215 | A new stream is open and empty, at the directory path of its file name |
| NcbiProjectReporter.GroupsSplit | src/main/java/org/theseed/ncbi/reports/NcbiProjectReporter.java:124-130 | Together the first group and the delay queue hold the accessions, each as often as it occurs |
| NcbiTableReporter.TagEnd | src/main/java/org/theseed/ncbi/reports/NcbiTableReporter.java:41 | How far the lazy `.*?` can reach: the first '>' or line terminator, or the end |
| NcbiTableReporter.CleanHtmlKeepsOpen | src/main/java/org/theseed/ncbi/reports/NcbiTableReporter.java:351-354 | A '<' that closes no tag still closes none once the text after it is cleaned |
| Util.SplitJoinTwo | src/main/java/org/theseed/ncbi/utils/NcbiQueryProcessor.java:143-145 | Two non-empty, separator-free fields joined by the separator split back into those two |
| Util.Wrap32Add | src/main/java/org/theseed/ncbi/download/ReadSample.java:140 | Wrapping after each `int` addition is wrapping the exact sum |
| Util.ParseInt | src/main/java/org/theseed/ncbi/download/ReadSample.java:136 | `Integer.valueOf` succeeds exactly for an optional sign followed by at least one digit whose value is in the `int` range. The value is the digits' value, negated after a minus sign. Every failure is a `NumberFormatException` on the string |
| Util.ParseIntToString | src/main/java/org/theseed/ncbi/download/ReadSample.java:136 | Every `int` is read back from its decimal rendering |
| Xml.GetAttribute | src/main/java/org/theseed/ncbi/reports/NcbiTableReporter.java:243-244 | A missing attribute reads as "" |
| Xml.DescendantsOfMembers | src/main/java/org/theseed/ncbi/reports/NcbiPubmedReporter.java:93 | A tag search finds exactly the descendants with that tag |
| Xml.FindFirst | src/main/java/org/theseed/ncbi/reports/NcbiPubmedReporter.java:89-91 | The first descendant with the tag, present iff there is one |
| Xml.GetXmlString | src/main/java/org/theseed/ncbi/reports/NcbiPubmedReporter.java:51-52 | The text of the first descendant with the tag, or "" |

## Left out

- Subprocesses and threads:
  - Launching FASTQ-DUMP, the stderr drain thread, the thread joins and the process check are not modelled. The dump output is a given line list and the process result a flag (the `dump` parameter).
  - The consumer runs in its own thread, so an `UncheckedIOException` raised while it reads a bad record dies with that thread. The model assumes the dump process still finishes, so the download goes on to flush. In the source, nothing reads the dump's standard output once the consumer has died. `downloadRun` then waits at `errorReader.join()` (NcbiDownloader.java:288) for the process to end, and the process may block on a full output pipe, so the run can hang there instead of reaching the flush.
- Logging and the wall-clock progress messages: they have no effect on state.
- Files: gzip, `PrintWriter`, the file system, directory creation and clearing, and marker-file I/O are not modelled.
  - A stream is a list of printed lines with flush and close marks.
  - Marker files are a map from path to content.
  - `validateReaderParms`' output-directory checks (NcbiFetchProcessor.java:148-161) are not part of this model.
- The SRALIB environment lookup: the toolkit directory is an `Option` parameter.
- The network: the NCBI connection, query execution and field-list lookup are parameters. `fetch` gives the experiment packages of a batch; the valid field names and field lines are inputs.
- The XML DOM: `XmlUtils` is not part of this model. An element is a datatype with tag, attributes, text and children, and a missing value reads as "".
- Java `null` strings: these are modelled as "" where the source tests for blank.
- User keyword patterns: whether a pattern is found in a text is the uninterpreted `finds` parameter, and pattern compilation is the `syntaxError` parameter.
- `NaturalSort`: the run order uses the lexicographic order on strings. The proofs use only its being a strict total order, but the output differs: runs are downloaded, and their reads written, in lexicographic order, so SRR10 comes before SRR9 where `NaturalSort` would put SRR9 first.
- `NcbiFilterQuery.validateDateType`: this is a parameter.
- `LocalDate.now`: this is a parameter.
- NcbiQueryProcessor.ParseIsoDate: `LocalDate.parse` is modelled for four-digit years only. Signed and wider years are not accepted.
- NcbiDownloader.Tallies: the counters `pairCount`, `singleCount`, `errorCount` and `readCount`, and the downloader's `runCount`, are unbounded naturals. The source's 32-bit `int` counters would wrap past 2^31 - 1 records, and the model's summary then shows the exact count where the source would print a negative one.
- NcbiFetchProcessor.NcbiFetchProcessor: the `downloadCount`, `skipCount` and `failCount` counters are unbounded naturals in the same way, with no 32-bit wrap-around.
- Util.ParseInt: ASCII digits only. `Integer.valueOf` also accepts the other Unicode decimal digits, which the model rejects.
- SortedSets.LexLess: strings are compared by Unicode scalar value. `String.compareTo` compares UTF-16 code units, which orders characters above U+FFFF before U+E000-U+FFFF; the two orders agree on all other text.
- NcbiQueryProcessor.QueryProcessor.Validate: when validation fails, the partly built query is not kept. The source leaves a half-built query in its field, but it is never used after the failure.
- `TabbedLineReader.findField`: the key column is given as its list of values.
- The keyword setup: it is a separate method on the table reporter. The project and PubMed reporters call it from their constructors.
- NcbiProjectTableReporter.closeReport and NcbiPubmedReporter.closeReport: these do nothing and are not modelled.
- NcbiTableReporter.FormatLine: requires the buffer to be at least as long as the headers. The source would raise an index error instead.
- The downloader constructor: NcbiFetchProcessor.java:283 calls an `NcbiDownloader(sample, dir, zipped)` constructor that does not exist. The model builds the downloader with the sample's id, runs and header classifier, through the constructor at NcbiDownloader.java:83-102.
- Reading records: NcbiDownloader.java:133 calls a `SeqPart(Iterator)` constructor that does not exist. Records are read with `SeqPart.read(sample, iter)`, the sample's classifier being passed in.
- Not modelled at all:
  - NcbiRawReporter (XML serialisation), NcbiSraReporter (compositions of the helpers), PaperDownloadProcessor (a web client).
  - App and BaseNcbiProcessor (command-line dispatch). Only the query loop of BaseNcbiProcessor.java:112-113 appears, as the `Queries` methods.
  - The `NcbiDownloadTest` stub.

## Findings

| source | as written | input that shows it | evidently intended | confidence | as-written member | corrected member |
|---|---|---|---|---|---|---|
| src/main/java/org/theseed/ncbi/download/PairedReadSample.java:54-60 | group 2 of `@(\S+)(\.[12])\s+.+` holds the dot, but the code compares it with `"1"`, so every read is classified RIGHT | header `@S1.1 x` | compare the digit after the dot, so `.1` gives LEFT | not executed | PairedReadSample.ProcessHeaderAsWritten, PairedReadSample.AsWrittenMisclassifiesLeft | PairedReadSample.ProcessHeader |
| src/main/java/org/theseed/ncbi/download/NcbiDownloader.java:152-157 | an unmatched RIGHT writes both reads as singletons but keeps the left read buffered, though the comment says to clear it | records L(a), R(b), R(a): read a is written both as a singleton and in a pair | clear the buffer after writing both singletons | not executed | NcbiDownloader.RouteAsWritten, NcbiDownloader.AsWrittenUnmatchedRight, NcbiDownloader.AsWrittenWritesTwice | NcbiDownloader.Route |
| src/main/java/org/theseed/ncbi/utils/NcbiQueryProcessor.java:65 | `\d+(?:-\d+(?:\d+)?)?`, checked at lines 125-126, allows at most one hyphen, so a full date is an invalid since-date | `--since 2018-10-20` (the option's own example) | `\d+(?:-\d+(?:-\d+)?)?`, accepting `YYYY`, `YYYY-MM` and `YYYY-MM-DD` | not executed | NcbiQueryProcessor.SinceDateAsWritten, NcbiQueryProcessor.AsWrittenRejectsIsoDates, NcbiQueryProcessor.AsWrittenRejectsExample | NcbiQueryProcessor.SinceDate, NcbiQueryProcessor.SinceDateParsesIsoDates |

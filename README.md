# WhatsApp number filter — a Dafny model

The repository holds two command-line scripts that read a list of phone numbers,
open each one in WhatsApp Web through Selenium, decide from what the page shows
whether the number has a WhatsApp account, and write the numbers to a "valid" and
an "invalid" file. `whatsapp_web_filter_cli.py` works with one browser.
`whatsapp_web_filter_multi-thread_cli.py` can also cut the list into chunks, log
one browser per chunk into WhatsApp Web, and run the chunks on a thread pool. It
also appends each number to its output file as soon as it is decided.

This project models the deterministic part of both scripts and proves properties
of it:

- reading and cleaning the input file (`NumberFile`);
- writing and appending to the output files (`NumberFile.TextFile`);
- the transport form of a number and its deep link (`Transport`);
- the two classification decisions (`ModalCheck` for the multi-thread script,
  `ChatCheck` for the single-browser script);
- the classification loop, with or without appending to files (`Partition`);
- the login polling loop (`LoginPoll`);
- chunking, the pool size and the worker profile names (`Chunking`);
- one worker, and the whole multi-thread run (`ThreadedFilter`,
  `ThreadedProperties`);
- both loops run with the real decisions (`EndToEnd`).

The browser is an oracle. The decision functions take an abstract record of what
the page did (`ModalProbe`, `ChatProbe`). The page oracle `observe(number, link)`
is keyed by the check: the number being checked and the deep link it opens. Two
numbers with one transport form open the same link twice, and the two openings
may end differently. The loops take a classifier
`string -> Result<Verdict>`, where `Failure` stands for an exception that escapes
`open_chat_for_number`. The login wait takes the sequence of poll observations
that fit in its timeout. A file is its text content. Helper modules `Results`,
`Sequences` and `Text` hold the result types, sequence vocabulary (subsequence,
concatenation, gathering parts in a given order) and Python's `str.strip`
whitespace set and `str(int)`.

Where the code and its description differ, the model follows the code:

- Sanitisation removes every `+` and every space in the number, not only a
  leading `+`.
- The `last_state` latch of `wait_for_login` is never reset, so the "QR code
  detected" notice is printed at most once per call, not once per entry into the
  QR state.
- In the single-browser script only `TimeoutException` is caught around the two
  waits. Any other exception escapes `open_chat_for_number` and ends
  `filter_numbers`. It does not make the number invalid.
- `filter_numbers_threaded` with a zero chunk size raises the `ValueError` of
  `range`. With a negative chunk size there are no chunks. Then the pool size
  `min(max_workers, 0)` is at most 0, and `ThreadPoolExecutor` raises. A `max_workers`
  below one raises in the same way. An empty number list returns two empty lists
  before any of this.
- If one worker raises (for example, its login times out), `future.result()`
  re-raises that exception in the collecting loop. The lists of every other worker
  are then lost, although their numbers were already appended to the files.

## Model

| member | source | states |
|---|---|---|
| Text.Trim | whatsapp_web_filter_multi-thread_cli.py:46 | `str.strip()`: the result is the infix of the input that neither begins nor ends with whitespace, and everything cut off is whitespace |
| Text.TrimIdempotent | whatsapp_web_filter_multi-thread_cli.py:46 | stripping a stripped line changes nothing |
| Text.DecimalInjective | whatsapp_web_filter_multi-thread_cli.py:470 | different worker ids give different decimal texts |
| NumberFile.FileLines | whatsapp_web_filter_multi-thread_cli.py:44-46 | the lines Python yields for a file lay end to end to the content |
| NumberFile.FileLinesShape | whatsapp_web_filter_multi-thread_cli.py:44-46 | each line is non-empty and ends at its first newline, and only the last may lack one |
| NumberFile.ReadNumbers | whatsapp_web_filter_multi-thread_cli.py:42-64 | the loop with the `seen` set returns `Cleaned(content)`, a list with no blank entry, no entry twice, and every entry stripped and on one line; the single-browser script has the same function at lines 27-39 |
| NumberFile.KeepFirstLoop | whatsapp_web_filter_multi-thread_cli.py:48-62 | the loop over stripped lines keeps exactly the first occurrence of each non-blank line |
| NumberFile.KeepFirstMembers | whatsapp_web_filter_multi-thread_cli.py:52-62 | a text is kept if and only if it is non-blank and one of the stripped lines |
| NumberFile.KeepFirstDistinct | whatsapp_web_filter_multi-thread_cli.py:58-62 | no text is kept twice |
| NumberFile.KeepFirstOrder | whatsapp_web_filter_multi-thread_cli.py:52-62 | kept texts appear in the order of their first occurrence among the lines |
| NumberFile.CleanedIsClean | whatsapp_web_filter_multi-thread_cli.py:42-64 | the cleaned list has no blank entry and no duplicate, and every entry is a stripped line |
| NumberFile.ReadBackWritten | whatsapp_web_filter_multi-thread_cli.py:67-77 | reading back a file written from a clean list gives that list |
| NumberFile.TextFile.WriteNumbers | whatsapp_web_filter_multi-thread_cli.py:67-77 | the file content becomes each number followed by a newline, in list order, whatever it was before, so writing the same list twice leaves the same content; the single-browser script has the same function at lines 42-46 |
| NumberFile.TextFile.AppendNumber | whatsapp_web_filter_multi-thread_cli.py:91-97 | the old content is kept and the number and a newline are added at the end |
| Transport.WithoutSpec | whatsapp_web_filter_multi-thread_cli.py:362 | `replace(c, "")` removes every `c` and keeps every other character, as often as before and in order |
| Transport.Sanitize | whatsapp_web_filter_multi-thread_cli.py:362 | the transport form has no `+` and no space, and holds the other characters of the stripped number, in order; the single-browser script uses the same expression at line 193 |
| Transport.SanitizePlain | whatsapp_web_filter_multi-thread_cli.py:362-364 | a number that is already stripped and has no `+` or space goes into the link unchanged |
| Transport.PlusSameTransport | whatsapp_web_filter_multi-thread_cli.py:362 | a leading `+` does not change the transport form of a number of digits |
| Transport.DeepLink | whatsapp_web_filter_multi-thread_cli.py:364 | the link is the fixed "send" prefix, the transport form as the `phone` parameter, and the fixed tail of parameters; the single-browser script builds it the same way at line 194 |
| Transport.DeepLinkInjective | whatsapp_web_filter_multi-thread_cli.py:364 | two transport forms that give the same link are equal |
| ModalCheck.Decide | whatsapp_web_filter_multi-thread_cli.py:384-406 | a number is valid exactly when the modal wait times out; a modal found or any other error makes it invalid, with the error text in the reason; only a navigation failure raises |
| ModalCheck.OpenChat | whatsapp_web_filter_multi-thread_cli.py:352-406 | one check of a number raises exactly when opening its deep link for that check raised, and otherwise finds the number valid exactly when the modal wait on that opening timed out |
| ModalCheck.SameTransportSameLink | whatsapp_web_filter_multi-thread_cli.py:362-366 | numbers with the same transport form open the same link |
| ModalCheck.DifferentTransportDifferentLink | whatsapp_web_filter_multi-thread_cli.py:362-364 | numbers with different transport forms open different links |
| ChatCheck.Decide | whatsapp_web_filter_cli.py:200-229 | a number is valid exactly when no error text appears and the chat header does; an error text or a header timeout makes it invalid; any other exception raises |
| ChatCheck.OpenChat | whatsapp_web_filter_cli.py:184-229 | one check of a number finds it valid exactly when, on the opening of its deep link for that check, the error-text wait timed out and the header was located; it raises exactly when navigation or a wait raised something other than a timeout |
| ChatCheck.HeaderIgnoredAfterErrorText | whatsapp_web_filter_cli.py:201-214 | once the error text is found the header wait is never consulted |
| Partition.FirstFailure | whatsapp_web_filter_cli.py:243-245 | the position of the first number whose classification raises: every earlier one returned |
| Partition.Partitioned | whatsapp_web_filter_cli.py:234-255 | the loop returns normally exactly when every classification returns |
| Partition.FilterNumbers | whatsapp_web_filter_cli.py:234-255 | the loop returns `Partitioned(numbers, classify)`: the first exception, or both lists |
| Partition.FilterNumbersAppending | whatsapp_web_filter_multi-thread_cli.py:415-445 | same result as `filter_numbers`; each file gains exactly the numbers added to its list, in order, up to the number that raised (all of them in one file when both paths are the same) |
| Partition.Record | whatsapp_web_filter_multi-thread_cli.py:435-441 | appending the decided number to the file of its verdict extends what the files record by that number |
| Partition.PartitionedExact | whatsapp_web_filter_multi-thread_cli.py:423-445 | on a normal return each number is in exactly one list, the lengths add up, both lists keep input order, and a list holds a number exactly when it has that verdict |
| EndToEnd.SingleBrowserRun | whatsapp_web_filter_cli.py:184-255 | with the real decision, `filter_numbers` returns normally exactly when no check raised, and then a number is in the valid list exactly when the opening of its link for it showed no error text and showed the header, and in the invalid list exactly when that opening showed the error text or the header wait timed out |
| EndToEnd.ModalRun | whatsapp_web_filter_multi-thread_cli.py:352-445 | with the modal decision, `filter_numbers_single` returns normally exactly when no navigation raised, and then a number is in the valid list exactly when the modal wait on the opening of its link for it timed out, and in the invalid list exactly when the modal showed or the wait failed |
| EndToEnd.OneLinkBothLists | whatsapp_web_filter_multi-thread_cli.py:362-366 | for every number of digits, `"+" + number` and `number` open the same deep link, and one run can put the first in the valid list and the second in the invalid list |
| Partition.SelectedMembers | whatsapp_web_filter_cli.py:247-250 | a number is in a list if and only if it is an input number with that verdict |
| Partition.SelectedOrder | whatsapp_web_filter_cli.py:243-250 | each list is a subsequence of the input |
| Partition.SelectedCover | whatsapp_web_filter_cli.py:243-250 | when every classification returns, the two lists together hold the input numbers, each as often as in the input |
| Partition.SelectedAppend | whatsapp_web_filter_multi-thread_cli.py:483-494 | selecting from two consecutive parts is selecting from each part |
| Partition.RecordedCompose | whatsapp_web_filter_multi-thread_cli.py:436-441 | two appending runs one after the other leave the files as one run over both lists would |
| LoginPoll.FirstReady | whatsapp_web_filter_multi-thread_cli.py:328-331 | the first poll that shows the main interface |
| LoginPoll.LoginOutcome | whatsapp_web_filter_multi-thread_cli.py:306-349 | the wait succeeds if and only if some poll shows the main interface, at the first such poll; otherwise it raises the timeout message |
| LoginPoll.QrNotices | whatsapp_web_filter_multi-thread_cli.py:319-326 | at most one QR notice; it is printed if and only if a QR code shows at or before the poll that ends the wait, and it is printed at the first poll showing one |
| LoginPoll.WaitForLogin | whatsapp_web_filter_multi-thread_cli.py:302-349 | the polling loop with its latch returns `LoginOutcome` and prints exactly `QrNotices` |
| LoginPoll.ReadyWinsOverQr | whatsapp_web_filter_multi-thread_cli.py:319-331 | a poll showing both the QR code and the main interface ends the wait, after the QR notice |
| LoginPoll.RaisedPollIgnored | whatsapp_web_filter_multi-thread_cli.py:333-336 | a poll whose query raised is the same as a poll that saw nothing: polling goes on and neither outcome nor notices change |
| Chunking.SlicesSpec | whatsapp_web_filter_multi-thread_cli.py:450-453 | the chunks lay end to end to the list; there are ceil(len/n) of them; none is empty or longer than n, and only the last may be shorter |
| Chunking.SliceAt | whatsapp_web_filter_multi-thread_cli.py:452-453 | chunk i is `lst[i*n : i*n + n]` |
| Chunking.ChunkList | whatsapp_web_filter_multi-thread_cli.py:450-453 | a zero step raises the `range` error, a negative one yields no chunks, and a positive one yields the slices above |
| Chunking.WorkerCount | whatsapp_web_filter_multi-thread_cli.py:528-530 | the pool size is at least one, at most the chunk count and at most the requested count, and equals one of them; a size below one raises |
| Chunking.ProfileSuffixInjective | whatsapp_web_filter_multi-thread_cli.py:470 | different worker ids give different profile suffixes |
| Chunking.ProfileSuffixesDistinct | whatsapp_web_filter_multi-thread_cli.py:532 | the workers 1 .. len(chunks) use pairwise distinct profiles |
| ThreadedFilter.ProcessChunk | whatsapp_web_filter_multi-thread_cli.py:456-500 | a worker raises the login timeout before trying any number, or returns what the appending loop returns for its chunk, with the files as that loop leaves them |
| ThreadedFilter.FirstFailed | whatsapp_web_filter_multi-thread_cli.py:547-548 | the first result collected whose worker raised: every earlier one returned |
| ThreadedFilter.Aggregate | whatsapp_web_filter_multi-thread_cli.py:547-550 | the collecting loop raises the first exception collected, or extends both lists with the workers' lists in collection order |
| ThreadedFilter.ThreadedOutcome | whatsapp_web_filter_multi-thread_cli.py:518-530 | empty input returns two empty lists; a zero chunk size, a negative one, or a pool size below one raises before any worker starts |
| ThreadedFilter.RunWorkers | whatsapp_web_filter_multi-thread_cli.py:532-545 | one worker per chunk, worker i + 1 on chunk i, each appending to the shared files; the workers run one after another, the schedule of a pool of one (`max_workers = 1`) |
| ThreadedFilter.RunWorker | whatsapp_web_filter_multi-thread_cli.py:532-545 | worker i + 1 yields the result of chunk i, and, in the one-at-a-time schedule, the files gain what it appended after what the earlier workers appended |
| ThreadedFilter.FilterNumbersThreaded | whatsapp_web_filter_multi-thread_cli.py:503-552 | the whole run returns `ThreadedOutcome`; in the one-at-a-time schedule (`max_workers = 1`) the files gain what the workers appended, worker after worker |
| ThreadedProperties.AggregatedSucceedsIffAll | whatsapp_web_filter_multi-thread_cli.py:547-549 | the run returns normally if and only if no worker raised |
| ThreadedProperties.SelectedConcat | whatsapp_web_filter_multi-thread_cli.py:547-550 | selecting chunk by chunk and joining the selections is selecting from the whole list |
| ThreadedProperties.ThreadedComplete | whatsapp_web_filter_multi-thread_cli.py:547-550 | in any completion order, the valid list holds exactly the registered numbers and the invalid list exactly the others, each as often as in the input |
| ThreadedProperties.ThreadedInOrder | whatsapp_web_filter_multi-thread_cli.py:547-550 | when the threaded run returns normally and its results are collected in submission order, it returns exactly the lists the single-browser loop returns |
| ThreadedProperties.ThreadedInOrderLoggedIn | whatsapp_web_filter_multi-thread_cli.py:503-552 | when chunk size and pool size are positive, every worker logs in, and results are collected in submission order, the threaded run returns exactly what the single-browser loop returns, the same exception included |
| ThreadedProperties.ThreadedFilesComplete | whatsapp_web_filter_multi-thread_cli.py:483-494 | when the run returns normally every worker appended its whole chunk, so every number was appended to the file of its verdict; in the one-at-a-time schedule they appear in input order |
| ThreadedProperties.ThreadedFilesAnySchedule | whatsapp_web_filter_multi-thread_cli.py:483-494 | when the two paths differ, under any schedule of the pool, when the run returns normally, whatever interleaving of the workers' appends a file receives holds exactly the numbers of its verdict, each as often as in the input, with each worker's appends in that worker's own order |
| ThreadedProperties.ThreadedSharedFileAnySchedule | whatsapp_web_filter_multi-thread_cli.py:483-494 | when both paths name one file, under any schedule of the pool, when the run returns normally, whatever interleaving of the workers' appends the file receives holds every input number exactly as often as the input does, with each worker's appends in that worker's own order |
| Sequences.InterleavesMultiset | whatsapp_web_filter_multi-thread_cli.py:530-545 | an interleaving of the workers' appends holds each appended number as often as the workers appended it |
| Sequences.InterleavesKeepsOrder | whatsapp_web_filter_multi-thread_cli.py:530-545 | in an interleaving each worker's appends keep their order |

## Left out

- Creating the browser (`create_driver`), the driver download, option and profile
  directory setup, and `print_manual_driver_instructions`: these are library calls
  and console text. Each worker's browser is assumed to start. A failure there
  would end the worker like a login timeout does.
- `driver.get(WHATSAPP_WEB_URL)` before the login wait and `driver.quit()` in the
  `finally`: both are assumed not to raise. If `driver.get` (outside the `try`) or
  `driver.quit()` raises, the worker raises that exception instead, even after its
  loop has finished, as with `create_driver`.
- The timeout screenshot and every `print` except the QR notice: these are I/O with
  no effect on the results.
- NumberFile.Lines, NumberFile.TextFile.WriteNumbers and NumberFile.TextFile.AppendNumber
  give the file content before text-mode newline translation: the files are opened
  in text mode, so on Windows each "\n" is written as "\r\n".
- The CSS and XPath selectors: each wait or query is modelled by how it ended.
- Wall-clock time, `time.sleep`, the settle delays and the per-number delay. The
  login timeout is the number of polls given to `LoginPoll.WaitForLogin`.
- `wait_for_login` of the single-browser script: it is one library wait that
  either finds the chat list or re-raises the timeout. It is not part of this
  model.
- Thread scheduling. Workers are run one after the other in submission order, so
  the model does not show how appends from concurrent workers interleave in a
  shared file. The order in which `as_completed` yields results is the parameter
  `order`, and the properties hold for every rearrangement of the chunk indices.
- ThreadedFilter.FilterNumbersThreaded, ThreadedFilter.RunWorkers, ThreadedFilter.RunWorker,
  ThreadedProperties.ThreadedFilesComplete: the file content they state is the one of a
  pool of one worker (`max_workers = 1`). With a pool of two or more each file gets an
  interleaving of the workers' appends, in no fixed order across workers.
  `ThreadedProperties.ThreadedFilesAnySchedule` states what holds under every such
  interleaving. Each `append_number` call is taken to write its whole line at once.
- `ThreadedFilter.FilterNumbersThreaded`: the classifier is one deterministic
  oracle per number for all workers. The real workers use separate browsers, so
  two of them could see different pages for the same number. Because the input is
  deduplicated, each number is checked only once per run. The page oracle is keyed
  by the number and its link, so two numbers that share a link are still checked
  separately (`EndToEnd.OneLinkBothLists`).
- The unreachable fallback returns at whatsapp_web_filter_multi-thread_cli.py:408-410
  and whatsapp_web_filter_cli.py:231. A located element is always truthy, so these
  lines never run, and they are not modelled.
- `NumberFile.FileLines` splits on `\n` only. Python's universal-newline handling
  of a lone `\r` is not modelled. A `\r` before `\n` is removed by stripping, as in
  Python.
- Text encoding: files are sequences of characters, with no UTF-8 decoding errors.
- `argparse`, `main`, the run log (`append_log`, `time.strftime`) and the final
  `write_numbers` calls in `main`. The final overwrite is
  `NumberFile.TextFile.WriteNumbers`.

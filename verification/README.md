# System Sentinel front ends in Dafny

System Sentinel is a Windows maintenance tool. A PowerShell script does the
cleaning, and three small Python programs sit around it. This project models
and verifies the core logic of those three programs:

- **The log activity analyser** (`report_generator.py`). It reads the
  script's log line by line. Every line that starts with a bracketed
  `YYYY-MM-DD HH:MM:SS` timestamp is counted in the bucket of its minute.
  The buckets are then put in time order to make the plotted series.
  Module `ReportGenerator`, file `report_generator.dfy`.
- **The folder text collector** (`copy_folder_text.py`). It walks a folder
  and appends every readable text file to one combined text: a header with
  the file's relative path, then its lines indented by four spaces. The
  combined text can be copied to the clipboard with every third token
  left out and a note in front. Module `CopyFolderText`, file
  `copy_folder_text.dfy`.
- **The main window** (`SystemSentinelGUI.py`). It starts the script as a
  child process, shows the child's output, and marks "Module A" green or
  red by the exit code. Module `SystemSentinelGui`, file
  `system_sentinel_gui.dfy`.

`text_util.dfy` (module `TextUtil`) holds the Python string behaviour the
three share: `str.isspace`, `str.strip` and `str.join`.

How each program is modelled:

- The parsing loop of `parse_log_dates` is a method with a loop. It is
  proved equal to `Tally`, a fold over the lines. What the source promises
  is then proved about `Tally`, against an independent per-bucket count
  `Count`.
- The sort-and-align step of `plot_log_activity` is a pure function.
- `is_text` and `transform_text` are pure functions with lemmas about them.
- The accumulation loop of `process_folder` is a method proved equal to the
  fold `CombinedText`.
- The two windows are classes whose fields are the widget state that their
  handlers change.

Everything outside the program's own logic becomes a parameter:

- a log file is its sequence of lines as `for line in f` yields them
  (terminators included), or `None` when the file does not exist;
- a folder is its files in walk order, each with its text or `None` when
  it could not be read;
- file existence and the resource base directory are given as inputs;
- the child's output chunks and its 32-bit exit code are given as inputs;
- messages to the logger, message boxes and process launches are recorded
  in sequence fields.

## Model

| member | source | states |
|---|---|---|
| TextUtil.Join | copy_folder_text.py:67 | `sep.join(parts)` of at least one part starts with the first part and is at least as long as the last. `SplitJoin` and `SplitLinesJoin` prove splitting undoes it. |
| TextUtil.Strip | copy_folder_text.py:70 | `strip()` gives a slice of the input with only whitespace around it. It is empty exactly when the input is all whitespace, and otherwise starts and ends with non-whitespace. |
| ReportGenerator.Before | report_generator.py:36 | The chronological order `sorted` uses is irreflexive. `BeforeTotal` and `BeforeTransitive` make it a strict total order. |
| ReportGenerator.ParseTimestamp | report_generator.py:22 | `strptime` with `%Y-%m-%d %H:%M:%S` succeeds only with a real date and time: year 1-9999, valid month, day within the month (leap years included), hour, minute and second in range. |
| ReportGenerator.ParseFormat | report_generator.py:22 | Every valid timestamp parses back from its own `YYYY-MM-DD HH:MM:SS` text. |
| ReportGenerator.FormatParsed | report_generator.py:22 | Only such text parses: whatever parses is exactly the formatted text of its result. |
| ReportGenerator.BeforeFirstBracket | report_generator.py:21 | `line.split("]")[0]` is the prefix before the first `]`, or the whole line when there is no `]`. |
| ReportGenerator.StripOpenBrackets | report_generator.py:21 | `lstrip("[")` removes only leading `[` characters, and removes all of them. |
| ReportGenerator.TruncateToMinute | report_generator.py:23 | `replace(second=0)` zeroes the seconds and keeps every other field. A valid timestamp stays valid and does not move later. |
| ReportGenerator.LineMinute | report_generator.py:19-23 | A line counts only if it starts with `[` and its timestamp text parses. Its bucket is a valid time with seconds 0 that agrees with the parsed timestamp on year, month, day, hour and minute. In every other case the line is skipped. |
| ReportGenerator.Increment | report_generator.py:24 | `counts[m] = counts.get(m, 0) + 1` adds the key if it is missing. The bucket becomes one more than before, or 1 if it was missing. Every other bucket is unchanged. |
| ReportGenerator.Tally | report_generator.py:16-26 | There are at most as many buckets as lines, and every bucket holds between 1 and the number of lines. |
| ReportGenerator.TallyAppend | report_generator.py:24-26 | One more line: a skipped line leaves the mapping unchanged. A counted line adds its own bucket if missing, raises it by exactly 1, and leaves every other bucket as it was. |
| ReportGenerator.TallyIsCount | report_generator.py:24 | A bucket exists exactly when at least one line is counted in it, and it holds that number of lines (so at least 1). |
| ReportGenerator.TallyKeys | report_generator.py:17-24 | The keys are exactly the minutes of the counted lines. |
| ReportGenerator.SkippedLineIrrelevant | report_generator.py:25-26 | Deleting a skipped line from anywhere in the log does not change the mapping. |
| ReportGenerator.ParseLogDates | report_generator.py:6-27 | A missing file gives the empty mapping. Otherwise the loop's final mapping is `Tally` of the file's lines. |
| ReportGenerator.SortedKeys | report_generator.py:36 | `sorted(keys)` lists every key exactly once, in strictly ascending time order. |
| ReportGenerator.PlotSeries | report_generator.py:31-37 | No plot for an empty mapping. Otherwise the times are the mapping's keys in strictly ascending order, and `counts[i] == data[times[i]]` at every position. |
| ReportGenerator.PlotLogActivity | report_generator.py:29-37 | The plotted series is `PlotSeries` of what `parse_log_dates` returns. No plot is made for a missing file. |
| ReportGenerator.ActivityTotal | report_generator.py:24 | The plotted counts add up to the number of counted lines, which is at most the number of lines. There is no plot exactly when no line counts. |
| ReportGenerator.CountBelowEntries | report_generator.py:24 | No bucket holds more lines than are counted in total. |
| CopyFolderText.IsPrintable | copy_folder_text.py:95 | `isprintable()` holds for exactly one whitespace character, the ASCII space. |
| CopyFolderText.CountBinary | copy_folder_text.py:95 | The non-printable count (newline, carriage return and tab exempt) is at most the length. It is 0 exactly when no character counts. |
| CopyFolderText.CountBinaryConcat | copy_folder_text.py:95 | The count adds up over concatenation. |
| CopyFolderText.IsText | copy_folder_text.py:87-96 | False for the empty string. Otherwise true exactly when at most 30 percent of the characters are counted, i.e. `10 * non_printable <= 3 * total`. |
| CopyFolderText.StaysTextWithPrintableTail | copy_folder_text.py:94-96 | Appending characters that do not count keeps a text a text. |
| CopyFolderText.Split | copy_folder_text.py:103 | `split()` yields only non-empty tokens without whitespace. |
| CopyFolderText.SplitToken | copy_folder_text.py:103 | A text that is one token splits into exactly that token. |
| CopyFolderText.SplitAtSpace | copy_folder_text.py:103 | For any text, any whitespace character cuts it in two: the tokens are those before it followed by those after it. With `SplitToken` and the empty text this fixes `split()` on every input. |
| CopyFolderText.SplitJoin | copy_folder_text.py:103-106 | Splitting undoes joining tokens with single spaces. |
| CopyFolderText.DropEveryThird | copy_folder_text.py:105 | Token `i` is kept exactly when `(i + 1) % 3 != 0`, at position `i - i / 3`. The kept tokens keep their order, and `n - n / 3` of `n` tokens remain. |
| CopyFolderText.TransformText | copy_folder_text.py:98-108 | The result always starts with the omission note. |
| CopyFolderText.TransformTextTokens | copy_folder_text.py:103-108 | What follows the note splits into exactly the kept tokens of the input, `n - n / 3` of them. |
| CopyFolderText.SplitLines | copy_folder_text.py:67 | `splitlines()` yields lines without line-boundary characters. |
| CopyFolderText.SplitLinesOneLine | copy_folder_text.py:67 | A non-empty text without line boundaries is exactly one line. |
| CopyFolderText.SplitLinesAtBreak | copy_folder_text.py:67 | For any rest, a line followed by a one-character boundary gives that line and then the lines of the rest; a boundary at the very end adds no empty line. A `\r` is one boundary only when no `\n` follows it. |
| CopyFolderText.SplitLinesAtCrLf | copy_folder_text.py:67 | `\r\n` is a single boundary. With `SplitLinesAtBreak`, `SplitLinesOneLine` and the empty text this fixes `splitlines()` on every input. |
| CopyFolderText.SplitLinesJoin | copy_folder_text.py:67 | Splitting into lines undoes joining with `\n` when the last line is non-empty. |
| CopyFolderText.IndentedContentLines | copy_folder_text.py:67 | The indented content splits back into the file's lines, in order, each with four spaces in front. |
| CopyFolderText.IsLineBreak | copy_folder_text.py:67 | Every `splitlines()` boundary is also whitespace for `split()` and `strip()`, and is not printable. |
| CopyFolderText.Header | copy_folder_text.py:65 | For a path without line boundaries, the header is exactly one line, `--- <path> ---`. |
| CopyFolderText.IndentedContent | copy_folder_text.py:67 | A one-line file becomes that line with four spaces in front. `IndentedContentLines` covers any number of lines. |
| CopyFolderText.CombinedText | copy_folder_text.py:68 | A run of files none of which is readable text gives the empty text. |
| CopyFolderText.CombinedTextConcat | copy_folder_text.py:68 | The combined text of two runs of files is the first run's text followed by the second's. Later files never change earlier text. |
| CopyFolderText.RejectedFileIrrelevant | copy_folder_text.py:61-62 | An unreadable or non-text file contributes nothing, wherever it stands. |
| CopyFolderText.CombinedTextBlank | copy_folder_text.py:70-75 | The combined text is blank exactly when no file was accepted. |
| CopyFolderText.CollectText | copy_folder_text.py:51-68 | The loop appends, for each accepted file in walk order, its header, its indented lines and a blank line. The result equals `CombinedText`. |
| CopyFolderText.FolderTextCollector.constructor | copy_folder_text.py:17-43 | The window starts with the folder prompt as status, an empty text field, no highlight, and the clipboard untouched. |
| CopyFolderText.FolderTextCollector.ProcessFolder | copy_folder_text.py:45-75 | No folder: "No folder selected." and nothing else changes. Non-blank combined text: it is shown with "Text extracted…". Blank combined text: the field is cleared with "No valid text files…". The clipboard and highlight are never touched. |
| CopyFolderText.FolderTextCollector.CopyText | copy_folder_text.py:110-125 | Blank text: only the status becomes "Nothing to copy!". Otherwise the clipboard gets `TransformText` of the text, the field is highlighted, and the status says it was copied. The text never changes. |
| CopyFolderText.FolderTextCollector.ResetTextEditColor | copy_folder_text.py:127-128 | Removes the highlight and changes nothing else. |
| SystemSentinelGui.PathJoinShape | SystemSentinelGUI.py:26 | `os.path.join` ends with the relative part. An absolute relative part replaces the base. Otherwise the result starts with the base, with one `/` inserted exactly when the base is non-empty and does not end in `/`. |
| SystemSentinelGui.ResourcePath | SystemSentinelGUI.py:21-29 | The path is the join of base and relative path. A missing file adds exactly one error record, naming that path. |
| SystemSentinelGui.ResourcePathIgnoresExistence | SystemSentinelGUI.py:26-29 | The returned path is the same whether or not the file exists. |
| SystemSentinelGui.Module.Label | SystemSentinelGUI.py:75-79 | Each key is `Module ` followed by one letter, and the letter is `A`, `B` or `C` exactly for module A, B or C. |
| SystemSentinelGui.LabelsDistinct | SystemSentinelGUI.py:75-79 | Different modules have different labels, so the dictionary has three distinct keys. |
| SystemSentinelGui.MainWindow.constructor | SystemSentinelGUI.py:32-95 | The window starts with the run button enabled, the progress bar hidden, three unchecked plain module boxes, an empty log and no process. The icon is used if it exists; otherwise a warning is logged and the default icon is used. The window invariant `Valid` holds. |
| SystemSentinelGui.MainWindow.RunSentinel | SystemSentinelGUI.py:97-111 | Always appends "Starting System Sentinel...". Missing script: nothing is started, an error box names the path, the button is re-enabled and the progress bar hidden. Script present: exactly one `powershell.exe -ExecutionPolicy Bypass -File <path>` is launched, with the button disabled and the progress bar shown. `Valid` is kept in both cases. |
| SystemSentinelGui.MainWindow.HandleStdout | SystemSentinelGUI.py:113-116 | Appends the chunk unchanged and logs it stripped at debug level. Earlier log entries and all other state are unchanged. |
| SystemSentinelGui.MainWindow.HandleStderr | SystemSentinelGUI.py:118-121 | Appends `ERROR: ` and the chunk, and logs the stripped chunk at error level. Earlier log entries and all other state are unchanged. |
| SystemSentinelGui.MainWindow.ProcessFinished | SystemSentinelGUI.py:123-136 | Exit code 0 checks Module A and makes it green; any other code unchecks it and makes it red. Modules B and C are never modified. The button always ends enabled and the progress bar hidden. |
| SystemSentinelGui.MainWindow.CloseEvent | SystemSentinelGUI.py:148-152 | Kills the child exactly when its state is not `NotRunning`. Otherwise nothing changes. The event is always accepted. |

The window invariant `MainWindow.Valid` has several parts:

- the module dictionary holds exactly A, B and C;
- B and C stay unchecked and plain;
- A is checked exactly when it is green;
- the progress bar is shown exactly while the run button is disabled;
- a running child always has the run button disabled, so only one run can
  be started at a time.

## Left out

- ParseTimestamp: accepts only the zero-padded `strptime` form with exactly 19 characters. Python also accepts single-digit fields, any run of whitespace where the format has a space, and non-ASCII decimal digits. Lines that use those forms are modelled as skipped.
- IsPrintable: exact on U+0000 to U+00FF. Above that it treats as non-printable only the space and line/paragraph separators, the common format characters and the three private use areas. Python also treats unassigned code points, surrogates and the remaining format characters as non-printable.
- IsText: compares `10 * non_printable <= 3 * total` exactly. Python compares the float quotient with the double nearest 0.3, which can differ only for texts of about 10^15 characters or more.
- Reading files: `open`, `os.walk` with its sorting, `os.path.relpath` and the UTF-8 then Latin-1 fallback of `read_file_text` are inputs. Each file arrives with its relative path and its text, or `None`.
- Qt widget rendering, layouts, style sheet strings other than the colour, fonts, the window title, and any text normalisation done by `QTextEdit` are not modelled.
- The two-second `QTimer` before the highlight reset and the one-second `waitForFinished` after a kill are timing. The reset is its own method, and what the child does after a kill is left to Qt.
- CloseEvent: `waitForFinished(1000)` delivers the `finished` signal, so when the child dies within that second `process_finished` runs inside `closeEvent`. In the model that is a separate `ProcessFinished` call after `CloseEvent`; the child stays `Running` after the kill request, which allows it.
- `QProcess` internals are not modelled: spawning, the `Starting` state (folded into `Running`), a failed start, reading and UTF-8 decoding of the streams. Chunks arrive as already decoded strings.
- `show_report` (opening the log with `os.startfile` or `xdg-open`) is not part of this model. It only hands a path to the operating system.
- `sys._MEIPASS` probing and `os.path.abspath(".")` are replaced by the base directory given as an input. `os.path.join` follows POSIX rules; the Windows rules for drive letters and backslashes are not modelled.
- The matplotlib drawing, the console prints and the `__main__` blocks with their startup exception handler are not modelled.
- `icogen_cc.py` (icon drawing with floating-point gradients) and `log_helper.py` (logger configuration) are not part of this model.
- Behaviour of the code worth knowing:
  - There is no "already running" error: the run button is disabled while a child runs, so `RunSentinel` requires it enabled.
  - A missing log file is only printed, not reported to the caller, so `ParseLogDates` simply returns the empty mapping.
  - Only "Module A" is ever updated, whatever the script did.

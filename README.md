# python_llm core, modelled in Dafny

This project models the small, sequential pieces of the python_llm teaching repository whose
behaviour can be stated exactly, and proves what they do:

- the list-backed message queue of the FastAPI demo (`send_message`, `process_messages`);
- `RetryChain._call` of the custom LangChain chains: a bounded retry loop with linear backoff;
- the generator and iterator demo: `number_generator`, `fibonacci_generator`, the squares
  generator expression, the `CountDown` iterator and `nested_generator`;
- `DocumentProcessor.preprocess_text` (whitespace collapsing and the printable filter) and the
  suffix dispatch of `DocumentProcessor.load_document`;
- the decorator demo: `log_execution`, `repeat`, the call-counting `Timer` class, `bold`,
  `italic` and their composition `format_text`;
- the context manager demo: `Timer`, `DatabaseConnection` and `Transaction` with their
  `__enter__`/`__exit__`, `temporary_attribute`, and the nested `with` blocks;
- the object-oriented demo: the `Animal` hierarchy with its class-wide counter, and
  `BankAccount` with its validating `balance` property;
- the exception handling demo: `divide`, `process_data`, `InvalidAgeError`/`verify_age`, and
  the propagation from `inner_function` to `outer_function`;
- the control-flow demo: grading, the `for` and `while` loops, `continue`/`break`, and the
  case-insensitive `match`;
- the functions-and-modules demo: `greet`, `greet_with_title`, `sum_numbers`, `create_person`
  and `get_app_info`;
- the chat client demo: `simple_chat`, the stream accumulation and history update of
  `chat_with_memory`, and the loop of `interactive_chat`.

Each source file is one module (`MessageQueue`, `CustomChains`, `Generators`,
`DocumentProcessing`, `Decorators`, `ContextManagers`, `Oop`, `ExceptionHandling`,
`ControlFlow`, `FunctionsAndModules`, `OpenAiChat`). Three shared modules model the Python
built-ins the code relies on: `Wrappers` (`Option`, `Result`), `PyStrings` (`str.isspace`,
`str.isprintable`, `str.lower`, `str.split`, `' '.join`, `str.strip`) and `PyInts` (`str(n)`
and `int(s)` on decimal text).

Code that changes state in place is modelled imperatively: the message queue, the
`CountDown` iterator, the Fibonacci generator's state, the `Timer` decorator's counter, the
context managers and the objects whose attributes they change, the `Animal` class counter and
the bank account are classes whose methods carry `modifies` clauses, and every loop of the
source (`process_messages`, `_call`, `repeat`, the `while`/`for` loops of the control-flow
demo, the chunk loop of `chat_with_memory`, the loop of `interactive_chat`) is a `while` or
`for` loop proved against a specification function. Code made of expressions is modelled with
functions and lemmas.

Things the source does outside the program — printing, sleeping, reading the clock, calling
the LLM API, reading a line from the terminal — are parameters or recorded values:

- printed output is returned, or appended to a console object as events, where it carries the
  behaviour; otherwise it is dropped;
- `time.sleep` is recorded as the list of delays a run would sleep; `time.time` readings are
  parameters;
- a wrapped LangChain chain is a function from the attempt number to "returned an output" or
  "raised";
- the OpenAI client is a function from the request it is sent to its answer; a streamed
  answer is the sequence of optional delta texts it delivers and whether it raised after
  them;
- the lines typed at `input()` are a sequence.

## Model

| member | source | states |
|---|---|---|
| MessageQueue.Queue.constructor | 04_web_development/02_fastapi_basics/mq.py:2 | the module-level queue starts empty |
| MessageQueue.Queue.SendMessage | 04_web_development/02_fastapi_basics/mq.py:4-5 | the message is appended at the end of the queue; earlier entries are unchanged |
| MessageQueue.Queue.ProcessMessages | 04_web_development/02_fastapi_basics/mq.py:8-13 | the drain loop returns the queued messages in the order they were sent (FIFO through `pop(0)`), as many as were queued, and leaves the queue empty; it terminates because each pass removes one message |
| MessageQueue.DrainTwice | 04_web_development/02_fastapi_basics/mq.py:8-13 | two drains without a send in between: the first returns the queue, the second returns an empty list |
| MessageQueue.SendThenDrain | 04_web_development/02_fastapi_basics/mq.py:4-13 | sending a, b, c to an empty queue and draining returns [a, b, c] |
| CustomChains.NewRetryChain | 05_llm_development/02_langchain_basics/06_custom_chains.py:52-57 | the class defaults: `max_retries` 3 and `delay` 1 |
| CustomChains.InputKeys | 05_llm_development/02_langchain_basics/06_custom_chains.py:59-61 | `input_keys` are the wrapped chain's input keys |
| CustomChains.OutputKeys | 05_llm_development/02_langchain_basics/06_custom_chains.py:63-65 | `output_keys` are the wrapped chain's output keys |
| CustomChains.Backoff | 05_llm_development/02_langchain_basics/06_custom_chains.py:74 | the linear backoff schedule: the sleep after failed attempt a is `delay * (a + 1)` |
| CustomChains.RunFrom | 05_llm_development/02_langchain_basics/06_custom_chains.py:67-74 | the run of the retry loop from a given attempt on; stated by `RunFromStep`, `SucceedsAtFrom`, `AllFailFrom` and `RunShapeFrom` |
| CustomChains.Run | 05_llm_development/02_langchain_basics/06_custom_chains.py:67-74 | the run of `_call` from attempt 0; stated by `SucceedsAt`, `AllAttemptsFail`, `NoRetriesReturnsNone` and `DefaultsAlwaysFailing` |
| CustomChains.Call | 05_llm_development/02_langchain_basics/06_custom_chains.py:67-74 | the `for attempt` loop with early return, re-raise on the last attempt and a sleep otherwise produces exactly the run that `Run` defines: outcome, number of calls and the delays slept |
| CustomChains.RunFromStep | 05_llm_development/02_langchain_basics/06_custom_chains.py:68-74 | an attempt that raises and is not the last sleeps `delay * (attempt + 1)` and the run continues with the next attempt, adding one invocation |
| CustomChains.SucceedsAtFrom | 05_llm_development/02_langchain_basics/06_custom_chains.py:68-71 | from any attempt on: failures until attempt k, then success, return attempt k's output |
| CustomChains.SucceedsAt | 05_llm_development/02_langchain_basics/06_custom_chains.py:68-74 | if attempts 0..k-1 fail and attempt k < `max_retries` succeeds, the chain is called k+1 times, attempt k's output is returned and the sleeps are delay, 2·delay, …, k·delay |
| CustomChains.FirstAttemptSucceeds | 05_llm_development/02_langchain_basics/06_custom_chains.py:68-70 | success on the first attempt returns its output after one call and no sleep |
| CustomChains.AllFailFrom | 05_llm_development/02_langchain_basics/06_custom_chains.py:68-74 | from any attempt on: when all remaining attempts fail, the last failure is re-raised |
| CustomChains.AllAttemptsFail | 05_llm_development/02_langchain_basics/06_custom_chains.py:68-74 | when every attempt fails, the chain is called `max_retries` times, the last exception is re-raised, and there is no sleep after the final attempt |
| CustomChains.NoRetriesReturnsNone | 05_llm_development/02_langchain_basics/06_custom_chains.py:67-68 | with `max_retries <= 0` the loop body never runs: no call, no sleep, and `_call` returns None |
| CustomChains.RunShapeFrom | 05_llm_development/02_langchain_basics/06_custom_chains.py:67-74 | for every behaviour of the wrapped chain: at most `max_retries` calls, one sleep fewer than calls, the a-th sleep is `delay * (a + 1)`, every call but the last raised, a returned output is the last call's, a re-raised exception is that of attempt `max_retries - 1` |
| CustomChains.DefaultsAlwaysFailing | 05_llm_development/02_langchain_basics/06_custom_chains.py:52-74 | with the defaults, an always-failing chain is called 3 times, sleeps 1 then 2, and its third exception is re-raised |
| Generators.Range | 02_advanced_features/02_generators_iterators.py:12-15 | `number_generator(n)` yields exactly 0, 1, …, n-1, and nothing for n ≤ 0 |
| Generators.Squares | 02_advanced_features/02_generators_iterators.py:28 | the generator expression yields max(n, 0) values, the i-th being i*i |
| Generators.SquaresBelowTen | 02_advanced_features/02_generators_iterators.py:28 | the demo's expression yields 0, 1, 4, …, 81 |
| Generators.FibonacciGenerator.constructor | 02_advanced_features/02_generators_iterators.py:18-20 | the generator starts with `a, b = 0, 1` and has yielded nothing |
| Generators.FibonacciGenerator.Next | 02_advanced_features/02_generators_iterators.py:21-23 | the k-th `next` yields fib(k) (fib(0) = 0, fib(1) = 1) and keeps `a, b` at two consecutive Fibonacci numbers |
| Generators.Fib | 02_advanced_features/02_generators_iterators.py:18-23 | the Fibonacci numbers the generator's `a` runs through; `FibonacciGenerator.Next` and `TakeFibonacci` state the generator against it |
| Generators.TakeFibonacci | 02_advanced_features/02_generators_iterators.py:65-67 | taking `count` values gives fib(0), …, fib(count-1), and consecutive values satisfy f(k+2) = f(k+1) + f(k) |
| Generators.CountDownValues | 02_advanced_features/02_generators_iterators.py:43-47 | a countdown from s yields s, s-1, …, 1, and nothing for s ≤ 0 |
| Generators.CountDown.constructor | 02_advanced_features/02_generators_iterators.py:37-38 | the iterator stores its start |
| Generators.CountDown.Iter | 02_advanced_features/02_generators_iterators.py:40-41 | `__iter__` returns the iterator itself |
| Generators.CountDown.Next | 02_advanced_features/02_generators_iterators.py:43-47 | with `start ≤ 0` it raises StopIteration and changes nothing; otherwise it decrements `start` by exactly 1 and returns the old value |
| Generators.CountDown.Drain | 02_advanced_features/02_generators_iterators.py:74-76 | iterating the countdown to the end yields `CountDownValues` of its start and leaves `start` at 0 (or where it was when not positive) |
| Generators.CountDownTwice | 02_advanced_features/02_generators_iterators.py:40-47 | the iterator is its own iterator, so a second iteration after exhaustion yields nothing |
| Generators.YieldFromInts | 02_advanced_features/02_generators_iterators.py:52 | `yield from range(3)` yields each number in order |
| Generators.YieldFromChars | 02_advanced_features/02_generators_iterators.py:53 | `yield from 'ABC'` yields each character in order |
| Generators.NestedGeneratorYields | 02_advanced_features/02_generators_iterators.py:50-53 | `nested_generator` yields 0, 1, 2, 'A', 'B', 'C' |
| Generators.NestedGenerator | 02_advanced_features/02_generators_iterators.py:50-53 | the items of `nested_generator`; stated by `NestedGeneratorYields` |
| DocumentProcessing.SplitYieldsWords | 05_llm_development/03_vector_store/03_document_processing.py:37 | every piece of `text.split()` is a non-empty run of non-whitespace |
| DocumentProcessing.FirstWordOfSkipped | 05_llm_development/03_vector_store/03_document_processing.py:37 | after skipping leading whitespace, `split()` takes a non-empty first word and what remains is shorter than the input |
| DocumentProcessing.JoinIsSingleSpaced | 05_llm_development/03_vector_store/03_document_processing.py:37 | joining words with single spaces gives text with no leading, trailing or doubled whitespace |
| DocumentProcessing.JoinedTextIsSingleSpaced | 05_llm_development/03_vector_store/03_document_processing.py:37 | after `' '.join(text.split())` the text is single-spaced, and it is exactly the text the character scan `Collapse` produces |
| DocumentProcessing.Collapse | 05_llm_development/03_vector_store/03_document_processing.py:37 | the reference definition of the join step as one scan over the characters: leading whitespace dropped, each inner whitespace run written as one space, a trailing run dropped |
| DocumentProcessing.JoinSplitIsCollapse | 05_llm_development/03_vector_store/03_document_processing.py:37 | `' '.join(text.split())` equals the character scan `Collapse` for every text |
| DocumentProcessing.SqueezeWord | 05_llm_development/03_vector_store/03_document_processing.py:37 | the scan copies a run without whitespace unchanged |
| DocumentProcessing.SqueezeSpaceRun | 05_llm_development/03_vector_store/03_document_processing.py:37 | the scan turns an inner whitespace run into one space and a final run into nothing |
| DocumentProcessing.CollapseTwoWords | 05_llm_development/03_vector_store/03_document_processing.py:37 | two words with any whitespace runs before, between and after them join to the two words with one space between |
| DocumentProcessing.CollapseDemo | 05_llm_development/03_vector_store/03_document_processing.py:34-40 | "\n a \t b  " is cleaned to "a b" |
| DocumentProcessing.JoinSplitLength | 05_llm_development/03_vector_store/03_document_processing.py:37 | the join step never makes the text longer than the text after its leading whitespace |
| DocumentProcessing.SingleSpacedIsFixedPoint | 05_llm_development/03_vector_store/03_document_processing.py:37 | single-spaced text is unchanged by the join step |
| DocumentProcessing.KeepPrintable | 05_llm_development/03_vector_store/03_document_processing.py:39 | the filter keeps only printable characters, keeps every printable character as often as it occurs, drops every other one, and never lengthens the text |
| DocumentProcessing.KeepPrintableIsSubsequence | 05_llm_development/03_vector_store/03_document_processing.py:39 | the filter's result is an order-preserving subsequence of its input |
| DocumentProcessing.AllPrintableKept | 05_llm_development/03_vector_store/03_document_processing.py:39 | text whose characters are all printable passes the filter unchanged |
| DocumentProcessing.PreprocessText | 05_llm_development/03_vector_store/03_document_processing.py:34-40 | every character of the result is printable |
| DocumentProcessing.PreprocessShrinks | 05_llm_development/03_vector_store/03_document_processing.py:37-39 | the result is a subsequence of the joined text and no longer than the input |
| DocumentProcessing.BlankTextYieldsEmpty | 05_llm_development/03_vector_store/03_document_processing.py:37-39 | empty or all-whitespace input yields "" |
| DocumentProcessing.CleanTextUnchanged | 05_llm_development/03_vector_store/03_document_processing.py:37-39 | input without whitespace whose characters are all printable is returned unchanged |
| DocumentProcessing.LastSegment | 05_llm_development/03_vector_store/03_document_processing.py:18 | the last path segment is no longer than the path |
| DocumentProcessing.LastDot | 05_llm_development/03_vector_store/03_document_processing.py:18 | the index of the last dot, or -1 |
| DocumentProcessing.FileName | 05_llm_development/03_vector_store/03_document_processing.py:18 | `Path(p).name`: the last component, skipping empty and "." components; its properties are stated by `FileNameOf`, `FileNameTrailingSlash` and `FileNameWithSuffix` |
| DocumentProcessing.Suffix | 05_llm_development/03_vector_store/03_document_processing.py:19 | `Path.suffix`: from the last dot on, unless that dot is first or last; its properties are stated by `SuffixOf`, `LastDotOf` and `LastDotNone` |
| DocumentProcessing.LoadDocument | 05_llm_development/03_vector_store/03_document_processing.py:16-28 | the suffix dispatch of `load_document`; its behaviour is stated by `LoadBySuffix`, `LoadHiddenFile`, `LoadNoSuffix` and `LoadTrailingSlash` |
| DocumentProcessing.LastSegmentOf | 05_llm_development/03_vector_store/03_document_processing.py:18 | the last segment of `name`, bare or as `dir/name`, is `name` |
| DocumentProcessing.FileNameOf | 05_llm_development/03_vector_store/03_document_processing.py:18 | the file name of `name`, bare or as `dir/name`, is `name` |
| DocumentProcessing.FileNameTrailingSlash | 05_llm_development/03_vector_store/03_document_processing.py:18 | a trailing slash does not change the file name |
| DocumentProcessing.LastDotOf | 05_llm_development/03_vector_store/03_document_processing.py:18 | the last dot of `stem.ext` is the one before `ext` |
| DocumentProcessing.LastDotNone | 05_llm_development/03_vector_store/03_document_processing.py:18 | a name without a dot has no last dot |
| DocumentProcessing.SuffixOf | 05_llm_development/03_vector_store/03_document_processing.py:18-19 | the suffix of `stem.ext` is `.ext` |
| DocumentProcessing.FileNameWithSuffix | 05_llm_development/03_vector_store/03_document_processing.py:18 | the file name of `stem.ext`, bare or as `dir/stem.ext`, is `stem.ext` |
| DocumentProcessing.LoadBySuffix | 05_llm_development/03_vector_store/03_document_processing.py:18-28 | for `stem.ext`, bare or inside a directory: suffix `.pdf` selects the PDF loader, `.txt` the text loader, and every other suffix (`.PDF` included) raises ValueError naming the suffix |
| DocumentProcessing.DispatchOnSuffix | 05_llm_development/03_vector_store/03_document_processing.py:19-28 | a path whose suffix is `.ext` gets the PDF loader iff ext is "pdf", the text loader iff it is "txt", and otherwise ValueError naming `.ext` |
| DocumentProcessing.LoadDemo | 05_llm_development/03_vector_store/03_document_processing.py:16-28 | "report.pdf" gets the PDF loader and "notes.txt" the text loader |
| DocumentProcessing.LoadHiddenDemo | 05_llm_development/03_vector_store/03_document_processing.py:16-28 | the bare dot file ".pdf" is refused with an empty suffix |
| DocumentProcessing.LoadTrailingSlash | 05_llm_development/03_vector_store/03_document_processing.py:18-28 | a trailing slash does not change the dispatch |
| DocumentProcessing.LoadHiddenFile | 05_llm_development/03_vector_store/03_document_processing.py:18-28 | a dot file such as `.pdf`, bare or inside a directory, has the empty suffix and raises ValueError |
| DocumentProcessing.LoadNoSuffix | 05_llm_development/03_vector_store/03_document_processing.py:18-28 | a name without a dot, bare or inside a directory, has the empty suffix and raises ValueError |
| Decorators.LogExecution | 02_advanced_features/01_decorators.py:10-16 | the wrapper returns exactly the wrapped function's result for every argument |
| Decorators.LogExecutionTwice | 02_advanced_features/01_decorators.py:10-16 | decorating twice still returns the function's result |
| Decorators.Repeat | 02_advanced_features/01_decorators.py:24-31 | the function is called exactly `times` times (none for times ≤ 0) and the last call's result is returned; for times ≤ 0 `result` is never bound and the call fails with UnboundLocalError |
| Decorators.PrintMessageThreeTimes | 02_advanced_features/01_decorators.py:33-35 | the message is printed three times |
| Decorators.Timer.constructor | 02_advanced_features/01_decorators.py:39-41 | the counter starts at 0 |
| Decorators.Timer.Call | 02_advanced_features/01_decorators.py:43-46 | each call increments the counter by one and returns the wrapped function's result |
| Decorators.ExpensiveOperationTwice | 02_advanced_features/01_decorators.py:48-50 | after the demo's two calls the counter is 2 |
| Decorators.Bold | 02_advanced_features/01_decorators.py:53-56 | the wrapper returns "<b>" + result + "</b>" |
| Decorators.Italic | 02_advanced_features/01_decorators.py:58-61 | the wrapper returns "<i>" + result + "</i>" |
| Decorators.FormatTextOutput | 02_advanced_features/01_decorators.py:63-66 | `@bold` over `@italic` gives "<b><i>" + text + "</i></b>" |
| Decorators.FormatText | 02_advanced_features/01_decorators.py:63-66 | `format_text` under both decorators; stated by `FormatTextOutput` and `StackingOrderMatters` |
| Decorators.StackingOrderMatters | 02_advanced_features/01_decorators.py:63-66 | stacking the decorators the other way round gives a different text |
| Decorators.BoldUnwraps | 02_advanced_features/01_decorators.py:53-56 | the wrapped result can be read back from inside the tags |
| Decorators.ItalicUnwraps | 02_advanced_features/01_decorators.py:58-61 | the wrapped result can be read back from inside the tags |
| ContextManagers.Console.Emit | 02_advanced_features/03_context_managers.py:31 | a print appends one event to the output |
| ContextManagers.Timer.Enter | 02_advanced_features/03_context_managers.py:28-32 | `__enter__` records the start time, prints the start line and returns the manager |
| ContextManagers.Timer.Exit | 02_advanced_features/03_context_managers.py:34-38 | `__exit__` prints the elapsed time and returns False |
| ContextManagers.DatabaseConnection.Enter | 02_advanced_features/03_context_managers.py:61-63 | `__enter__` prints the connect line and returns the manager |
| ContextManagers.DatabaseConnection.Exit | 02_advanced_features/03_context_managers.py:65-67 | `__exit__` prints the close line and returns False |
| ContextManagers.Transaction.Enter | 02_advanced_features/03_context_managers.py:70-72 | `__enter__` prints the begin line and returns the manager |
| ContextManagers.Transaction.Exit | 02_advanced_features/03_context_managers.py:74-79 | `__exit__` commits iff no exception occurred and rolls back naming the exception type otherwise; it returns False |
| ContextManagers.TransactionBlock | 02_advanced_features/03_context_managers.py:69-79 | a `with Transaction()` block begins, then commits iff the body did not raise, and the body's exception propagates |
| ContextManagers.DatabaseBlock | 02_advanced_features/03_context_managers.py:57-67 | a `with DatabaseConnection(db)` block connects, closes, and lets the body's exception propagate |
| ContextManagers.TimerBlock | 02_advanced_features/03_context_managers.py:23-38 | a `with Timer(d)` block reports the elapsed time and lets the body's exception propagate |
| ContextManagers.NestedDemo | 02_advanced_features/03_context_managers.py:107-114 | the nested demo connects, begins, operates, rolls back on ValueError, closes, and the ValueError reaches the outer `except` |
| ContextManagers.PyObject.GetAttr | 02_advanced_features/03_context_managers.py:46 | attribute lookup: the instance attribute, else the class attribute, else missing |
| ContextManagers.PyObject.GetAttrOrNone | 02_advanced_features/03_context_managers.py:46 | `getattr(obj, name, None)` |
| ContextManagers.PyObject.SetAttr | 02_advanced_features/03_context_managers.py:47 | `setattr` sets the instance attribute only |
| ContextManagers.PyObject.DelAttr | 02_advanced_features/03_context_managers.py:52 | `delattr` removes the instance attribute and fails iff there is none |
| ContextManagers.TemporaryAttribute | 02_advanced_features/03_context_managers.py:43-54 | inside the block the attribute reads as the temporary value; on exit, normal or by exception, an old value that was not None is restored and one that was None or missing makes the attribute be deleted; no other attribute changes and the body's exception propagates |
| ContextManagers.TemporaryNameDemo | 02_advanced_features/03_context_managers.py:96-103 | the demo's `Person.name` reads as the original, then the temporary name, then the original again |
| ContextManagers.NoneAttributeIsDeleted | 02_advanced_features/03_context_managers.py:51-52 | as written, an attribute holding None does not survive the block |
| ContextManagers.TemporaryAttributeRestoring | 02_advanced_features/03_context_managers.py:43-54 | the intended restore: the instance attributes end exactly as they began |
| ContextManagers.NoneAttributeIsKept | 02_advanced_features/03_context_managers.py:51-54 | with the intended restore, an attribute holding None survives the block |
| Oop.AnimalClass.constructor | 01_python_basics/04_oop.py:16 | `species_count` starts at 0 |
| Oop.AnimalClass.GetSpeciesCount | 01_python_basics/04_oop.py:28-31 | `get_species_count` returns the class counter |
| Oop.Animal.constructor | 01_python_basics/04_oop.py:18-22 | stores name and species and increments the class counter by exactly 1 |
| Oop.Animal.Dog | 01_python_basics/04_oop.py:37-40 | species "Dog", the breed, and the counter incremented by exactly 1 |
| Oop.Animal.Cat | 01_python_basics/04_oop.py:53-54 | species "Cat" and the counter incremented by exactly 1 |
| Oop.Animal.MakeSound | 01_python_basics/04_oop.py:24-26 | the base class raises NotImplementedError with its message, exactly for base instances; a dog's or cat's sound starts with its name |
| Oop.Animal.SoundSuffix | 01_python_basics/04_oop.py:42-43 | a dog's sound is its name then "：汪汪！", a cat's its name then "：喵喵！" |
| Oop.Animal.Fetch | 01_python_basics/04_oop.py:45-47 | the name, "去捡", the item and "了" |
| Oop.CountAnimals | 01_python_basics/04_oop.py:16-31 | building any mix of animals leaves the counter at the number built |
| Oop.AnimalDemo | 01_python_basics/04_oop.py:85-97 | the demo's sounds, fetch text, and count 2 |
| Oop.BankAccount.constructor | 01_python_basics/04_oop.py:66-68 | the initial balance (default 0) is stored without the setter's check |
| Oop.BankAccount.Balance | 01_python_basics/04_oop.py:70-73 | the getter returns the balance |
| Oop.BankAccount.SetBalance | 01_python_basics/04_oop.py:75-80 | a negative value raises ValueError and leaves the balance unchanged; any other value is stored |
| Oop.SetThenGet | 01_python_basics/04_oop.py:70-80 | setting a non-negative balance and reading it returns that value; a negative one fails and the old balance is read |
| Oop.AccountDemo | 01_python_basics/04_oop.py:99-107 | the demo shows 1000, the negative balance fails with "余额不能为负数", and 1000 remains |
| ExceptionHandling.Divide | 01_python_basics/05_exception_handling.py:6-13 | `None` exactly when the divisor is zero; otherwise the quotient times the divisor gives the dividend |
| ExceptionHandling.DivideDemo | 01_python_basics/05_exception_handling.py:67-68 | 10/2 gives 5.0 and 10/0 gives None |
| ExceptionHandling.ProcessData | 01_python_basics/05_exception_handling.py:16-32 | text `int` refuses takes the ValueError handler, zero takes the ZeroDivisionError handler, any other number gives 100 divided by it |
| ExceptionHandling.QuotientDivides | 01_python_basics/05_exception_handling.py:21 | 100 / n times n is 100 |
| ExceptionHandling.ProcessDataOfInt | 01_python_basics/05_exception_handling.py:20-22 | on the text of any non-zero integer the result is 100 divided by it |
| ExceptionHandling.ProcessDataTen | 01_python_basics/05_exception_handling.py:71 | "10" gives 10.0 |
| ExceptionHandling.ParseRejectsNonDigit | 01_python_basics/05_exception_handling.py:20 | text starting with neither a sign nor a digit is refused by `int` |
| ExceptionHandling.ProcessDataLetters | 01_python_basics/05_exception_handling.py:72 | "abc" takes the ValueError handler |
| ExceptionHandling.ProcessDataZero | 01_python_basics/05_exception_handling.py:73 | "0" takes the ZeroDivisionError handler |
| ExceptionHandling.VerifyAge | 01_python_basics/05_exception_handling.py:35-46 | ages accepted exactly in [0, 150], with "年龄" + age + "验证通过"; any other age raises InvalidAgeError carrying that age and "年龄必须在0-150岁之间" |
| ExceptionHandling.VerifyAgeMessageNamesAge | 01_python_basics/05_exception_handling.py:46 | the age can be read back from the accepted message |
| ExceptionHandling.VerifyAgeDemo | 01_python_basics/05_exception_handling.py:76-80 | 25 passes; 200 raises and the handler prints the message and the age |
| ExceptionHandling.AgeErrorLine | 01_python_basics/05_exception_handling.py:80 | the line the `except InvalidAgeError` handler prints; stated by `VerifyAgeDemo` |
| ExceptionHandling.Inner | 01_python_basics/05_exception_handling.py:60-62 | `inner_function` raises |
| ExceptionHandling.Middle | 01_python_basics/05_exception_handling.py:56-58 | `middle_function` passes on exactly what `inner_function` does |
| ExceptionHandling.Outer | 01_python_basics/05_exception_handling.py:49-54 | `outer_function` catches whatever the middle raises, prints its message, and returns normally |
| ExceptionHandling.PropagationDemo | 01_python_basics/05_exception_handling.py:49-62 | the ValueError of `inner_function` reaches `outer_function` with its message |
| ControlFlow.Grade | 01_python_basics/02_control_flow.py:15-22 | for any score, integer or fraction: 'A' iff score ≥ 90, 'B' iff in [80, 90), 'C' iff in [70, 80), 'D' iff below 70 |
| ControlFlow.PassResult | 01_python_basics/02_control_flow.py:25 | "通过" iff score ≥ 60, "不通过" iff below |
| ControlFlow.GradeMonotone | 01_python_basics/02_control_flow.py:15-22 | a higher score never gets a worse grade |
| ControlFlow.GradeDButPass | 01_python_basics/02_control_flow.py:15-25 | scores in [60, 70) get grade D and still pass |
| ControlFlow.IfStatementDemo | 01_python_basics/02_control_flow.py:88 | 85 is a B and passes |
| ControlFlow.Enumerate | 01_python_basics/02_control_flow.py:44-45 | `enumerate` pairs every item with its index, in order |
| ControlFlow.SquaresBelowFive | 01_python_basics/02_control_flow.py:48 | the comprehension gives [0, 1, 4, 9, 16] |
| ControlFlow.CountWhile | 01_python_basics/02_control_flow.py:54-57 | the counting loop prints 0, …, limit-1 and ends with the count at the limit |
| ControlFlow.WhileLoopDemo | 01_python_basics/02_control_flow.py:54-57 | the demo's loop prints 0, 1, 2 and ends with count 3 |
| ControlFlow.ContinueBreak | 01_python_basics/02_control_flow.py:61-67 | the loop with `continue` and `break` prints what `ContinueBreakOutput` defines |
| ControlFlow.ContinueBreakOutput | 01_python_basics/02_control_flow.py:61-67 | the numbers the loop prints; stated by `ContinueBreakSkips`, `ContinueBreakPrintsAll` and `ContinueBreakStopsAtFour` |
| ControlFlow.ContinueBreakSkips | 01_python_basics/02_control_flow.py:62-67 | nothing printed is a 2 or a 4, and everything printed comes from the list |
| ControlFlow.ContinueBreakPrintsAll | 01_python_basics/02_control_flow.py:62-67 | without 2s and 4s every number is printed |
| ControlFlow.ContinueBreakStopsAtFour | 01_python_basics/02_control_flow.py:65-66 | nothing after the first 4 matters |
| ControlFlow.ContinueBreakDemo | 01_python_basics/02_control_flow.py:61-67 | over [1, 2, 3, 4, 5] exactly 1 and 3 are printed |
| ControlFlow.MatchCommand | 01_python_basics/02_control_flow.py:73-81 | each branch is taken iff the lower-cased command is its keyword; anything else takes the default |
| ControlFlow.MatchIgnoresCase | 01_python_basics/02_control_flow.py:73 | two commands that lower-case alike take the same branch |
| ControlFlow.MatchDemo | 01_python_basics/02_control_flow.py:96-98 | "start" starts and "unknown" takes the default, as in the demo; beyond the demo, upper-case "STOP" stops |
| FunctionsAndModules.Greet | 01_python_basics/03_functions_and_modules.py:6-15 | "你好，" then the name then "！" |
| FunctionsAndModules.GreetInjective | 01_python_basics/03_functions_and_modules.py:15 | different names get different greetings |
| FunctionsAndModules.GreetWithTitle | 01_python_basics/03_functions_and_modules.py:19-20 | "尊敬的", the title, a space, the name, "，您好！"; the title defaults to "先生/女士" |
| FunctionsAndModules.GreetWithTitleInjective | 01_python_basics/03_functions_and_modules.py:20 | name and title can be read back, given the title's length |
| FunctionsAndModules.GreetDemo | 01_python_basics/03_functions_and_modules.py:45-49 | the demo's three greetings, the second with the default title |
| FunctionsAndModules.SumNumbersAppend | 01_python_basics/03_functions_and_modules.py:24-26 | the sum of two runs of arguments is the sum of their sums |
| FunctionsAndModules.SumNumbers | 01_python_basics/03_functions_and_modules.py:24-26 | `sum(numbers)` over the positional arguments; stated by `SumNumbersCons`, `SumNumbersAppend` and `SumNumbersDemo` |
| FunctionsAndModules.SumNumbersCons | 01_python_basics/03_functions_and_modules.py:24-26 | the sum is the first argument plus the sum of the rest |
| FunctionsAndModules.SumNumbersDemo | 01_python_basics/03_functions_and_modules.py:52 | no arguments sum to 0; 1..5 sum to 15 |
| FunctionsAndModules.CreatePerson | 01_python_basics/03_functions_and_modules.py:29-31 | the keyword mapping is returned unchanged |
| FunctionsAndModules.CreatePersonDemo | 01_python_basics/03_functions_and_modules.py:55-56 | the demo's person holds exactly three entries, name, age and city with the demo's values, and every other key is missing |
| FunctionsAndModules.GetAppInfo | 01_python_basics/03_functions_and_modules.py:34-40 | the app name followed by " v" and the version |
| FunctionsAndModules.GetAppInfoDemo | 01_python_basics/03_functions_and_modules.py:59 | "Python学习 v1.0.0" |
| OpenAiChat.ResolveModel | 05_llm_development/01_openai_basics/openai_chat.py:33 | a non-empty `model` wins, then `OPENAI_MODEL` when set, then "gpt-3.5-turbo" |
| OpenAiChat.SimpleChat | 05_llm_development/01_openai_basics/openai_chat.py:20-44 | one request holding only the user message; the answer's content, or None when the client raises |
| OpenAiChat.StreamTextAppend | 05_llm_development/01_openai_basics/openai_chat.py:68-75 | the text of two streams in a row is the first's text then the second's |
| OpenAiChat.StreamText | 05_llm_development/01_openai_basics/openai_chat.py:68-75 | the text of a stream: the non-None deltas in order; stated by `StreamTextAppend`, `StreamTextOfNones`, `StreamTextLength` and `Accumulate` |
| OpenAiChat.StreamTextOfNones | 05_llm_development/01_openai_basics/openai_chat.py:72 | deltas that are all None give no text |
| OpenAiChat.StreamTextLength | 05_llm_development/01_openai_basics/openai_chat.py:72-75 | the text's length is the sum of the delta lengths |
| OpenAiChat.Accumulate | 05_llm_development/01_openai_basics/openai_chat.py:68-75 | `full_response` is the in-order concatenation of the non-None delta contents |
| OpenAiChat.History.constructor | 05_llm_development/01_openai_basics/openai_chat.py:93 | the history holds the given messages |
| OpenAiChat.ChatWithMemory | 05_llm_development/01_openai_basics/openai_chat.py:46-82 | the whole history is sent; on success exactly one assistant message with the stream's text is appended and earlier entries are unchanged; on any exception the response is None and nothing is appended |
| OpenAiChat.InitialHistory | 05_llm_development/01_openai_basics/openai_chat.py:93-95 | the history begins with a single system message iff `system_message` is truthy |
| OpenAiChat.Turn | 05_llm_development/01_openai_basics/openai_chat.py:100-113 | an empty line stops without appending; a non-empty line is appended as a user message first; the loop goes on only after a non-empty assistant answer |
| OpenAiChat.InteractiveChat | 05_llm_development/01_openai_basics/openai_chat.py:84-113 | the `while True` loop holds exactly the conversation `Converse` defines |
| OpenAiChat.Converse | 05_llm_development/01_openai_basics/openai_chat.py:100-113 | the conversation the loop holds, turn after turn; stated by `ConverseExtends`, `ConverseGrowth` and `ConverseToEndOfInput` |
| OpenAiChat.EmptyInputEnds | 05_llm_development/01_openai_basics/openai_chat.py:100-104 | empty input after strip ends the loop and appends nothing |
| OpenAiChat.UserMessageSentLast | 05_llm_development/01_openai_basics/openai_chat.py:106-107 | a non-empty line is the last message of the history the client is sent; a raising client ends the loop there |
| OpenAiChat.EmptyReplyEnds | 05_llm_development/01_openai_basics/openai_chat.py:109-113 | an empty successful reply is falsy: "" is appended as the assistant message and the loop ends |
| OpenAiChat.ConverseExtends | 05_llm_development/01_openai_basics/openai_chat.py:93-113 | the history only grows: no earlier message changes |
| OpenAiChat.ConverseGrowth | 05_llm_development/01_openai_basics/openai_chat.py:100-113 | each line read adds at most two messages |
| OpenAiChat.ConverseToEndOfInput | 05_llm_development/01_openai_basics/openai_chat.py:100-113 | a conversation that reads every line adds exactly two messages per line |
| PyStrings.Lower | 01_python_basics/02_control_flow.py:73 | `str.lower` maps each character, upper-case ASCII letters to lower case |
| PyStrings.Split | 05_llm_development/03_vector_store/03_document_processing.py:37 | `text.split()`; stated by `SplitYieldsWords`, `FirstWordOfSkipped` and `JoinSplitIsCollapse` |
| PyStrings.Join | 05_llm_development/03_vector_store/03_document_processing.py:37 | `' '.join(words)`; stated by `JoinIsSingleSpaced` and `JoinSplitIsCollapse` |
| PyStrings.Strip | 05_llm_development/01_openai_basics/openai_chat.py:101 | `strip()` is the slice of the text between its leading and trailing whitespace: it neither starts nor ends with whitespace, everything cut off is whitespace, and it is empty exactly for all-whitespace text |
| PyInts.ShowInt | 01_python_basics/05_exception_handling.py:46 | `str(n)`: a minus sign exactly for negative numbers, then digits |
| PyInts.ParseShowInt | 01_python_basics/05_exception_handling.py:20 | `int(str(n)) == n` for every integer |
| PyInts.ParseInt | 01_python_basics/05_exception_handling.py:20 | `int(s)` on text; stated by `ParseShowInt` and `ParseRejectsNonDigit` |

## Left out

- Printing: output is modelled as returned values or console events where the behaviour
  depends on it (the loops, the context managers, the retry sleeps), and dropped elsewhere.
  The status lines of `process_data`'s `finally` and `simple_chat`'s error message are not
  modelled.
- Real time: `time.sleep` and `time.time`. Delays are whole time units and clock readings
  are parameters; the float `delay` of `RetryChain` is a natural number.
- The wrapped LangChain chain, the PDF and text loaders, the text splitter, the OpenAI client
  and the `.env` loading are not visible and are parameters or abstract tags.
  `init_openai_client` is not part of this model.
- `load_document` returns a loader tag instead of loading the file: file I/O is not modelled.
  Paths are POSIX paths with `/` as separator; Windows drive letters and `\` are not modelled.
- `ExceptionHandling.ProcessData`: `int()` is modelled for decimal text with optional sign and
  surrounding whitespace; underscores between digits, non-ASCII digits and the digit-count
  limit are not.
- `DocumentProcessing.PreprocessText`: `str.isprintable` is modelled for ASCII, the C0/C1
  controls, the format characters (Cf) of Unicode 15, the private-use ranges and the
  non-ASCII space separators; unassigned code points, which Python also treats as not
  printable, are not distinguished.
- `PyStrings.Lower`: only ASCII letters are lowered. For `ControlFlow.MatchCommand` this is
  exact, because no non-ASCII character lowers to a letter of "start", "stop" or "restart".
- `Oop.BankAccount.SetBalance`: balances are integers; floats are not modelled.
- `ExceptionHandling.VerifyAge`: ages are integers; a float age is not modelled.
- `ExceptionHandling.Divide`: modelled on exact reals, not IEEE floats.
- `ExceptionHandling.ProcessData`: the quotient `100 / n` is the exact real, not the IEEE
  float Python computes.
- `ContextManagers.TemporaryAttribute`: the body of the `with` block is taken not to touch
  the attribute itself; only whether it raises is modelled.
- `FunctionsAndModules.SumNumbers`: integers only; `sum` on floats is not modelled.
- `OpenAiChat.InteractiveChat`: `input()` past the last line raises EOFError, modelled as an
  ending of the conversation; `temperature` is passed through unchanged.
- The print-only greeting of `log_execution`'s demo, the fruits loop and `range(3)` loop of
  `for_loop_demo` (covered by `Generators.Range`) print values without further behaviour.

## Findings

| source | as written | input that shows it | evidently intended | confidence | as-written member | corrected member |
|---|---|---|---|---|---|---|
| 02_advanced_features/03_context_managers.py:46-54 | the saved value `None` is taken to mean "no attribute", so the attribute is deleted on exit | an object whose attribute `x` holds `None`, used in `with temporary_attribute(obj, 'x', 1)` | the object's attributes end as they began; `x` still holds `None` | medium, not executed | ContextManagers.NoneAttributeIsDeleted | ContextManagers.TemporaryAttributeRestoring |

`ContextManagers.TemporaryNameDemo` follows the demo, which calls `temporary_attribute` as
written. There, `name` is a class attribute, so both definitions let `p.name` read the
original name after the block.

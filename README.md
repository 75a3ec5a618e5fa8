# Assimilation nanoprobe and CMA core, modelled in Dafny

This project models five parts of the Assimilation monitoring system and proves
properties of each:

- **ResourceQueue** (`clientlib/resourcequeue.c`): the per-resource FIFO queues
  of resource commands, and the periodic pass that starts at most one command per
  resource. `resource_queue.dfy` models it as a class whose `resources` table
  (name to queue) is updated in place. Commands are objects with a running
  flag, a start time and a reference count. The clock reading is a parameter `now`.
- **ConfigContext** (`clientlib/configcontext.c`): the typed name/value store and
  its getters and setters, and `JSONquotestring` (`config_context.dfy`). It also
  models the recursive-descent JSON object parser, over the token stream of its
  scanner (`config_json_parser.dfy`). The parser methods consume a `Scanner`
  object and fill a `ConfigContext` through its setters. They are proved equal
  to pure parse functions, and the properties are proved about those functions.
- **ConfigFile** (`cma/cmaconfig.py`): template validation, the merge of default
  values into a configuration, `complete_config`, `isvalid` and `__setitem__`
  (`cma_config.dfy`). It includes the shipped `default_template` and
  `default_config`, with a proof that the defaults conform to the template.
- **JSONtree** (`cma/assimjson.py`): `_jsonesc` and the recursive serialiser
  `_jsonstr` (`assim_json.dfy`). It includes a proof that `_jsonesc` escapes
  exactly as `JSONquotestring` does.
- **NetGSource** (`clientlib/netgsource.c`): the table that maps FrameSet types
  to listeners, the choice of listener for each received FrameSet, and the
  `prepare`/`check` answers (`net_gsource.dfy`).

Where the code and its comments or documentation disagree, the model follows
the code:

- **When `runqueue` starts a command.** The scheduler pass picks a command when
  `starttime == 0 || starttime > now` (`resourcequeue.c:176`). The comment at
  line 36 describes a repeating command that waits for a delay before it runs
  again. As written, a command whose start time has been reached is never
  started, and one dated in the future is started at once. `IsDue` keeps the
  literal test, and two lemmas state the consequences.
- **`prepare`.** It returns FALSE, although its comment says TRUE.

A failed `remove` is not fatal: `g_return_if_fail` and `g_return_if_reached`
(`resourcequeue.c:112` and `120`) only log and return. The model reports the
failure as `ok == false` and leaves the table unchanged.

`_resource_queue_endnotify` (`resourcequeue.c:183-198`) ignores all its
arguments and changes nothing, so it has no counterpart in the model.

## Model

| member | source | states |
|---|---|---|
| ResourceQueues.FirstDue | clientlib/resourcequeue.c:174-180 | the position the second loop stops at: the first command satisfying the selection test, every earlier one failing it, or the queue length when none passes |
| ResourceQueues.Chosen | clientlib/resourcequeue.c:160-180 | the command one pass starts on a queue is in the queue, passes the selection test and has no passing command before it; there is none exactly when some command (at any position) is running or no command passes the test |
| ResourceQueues.EarlierDueCommandWins | clientlib/resourcequeue.c:174-179 | first in, first out: a command queued behind an eligible command is never the one started |
| ResourceQueues.PastDueNeverStarted | clientlib/resourcequeue.c:176 | with the literal test, a command whose start time is set and already reached is never started (contrary to the delayed-repeat intent of line 36) |
| ResourceQueues.FutureDatedStartedAtOnce | clientlib/resourcequeue.c:176 | with the literal test, a command dated in the future at the head of an idle queue is started immediately |
| ResourceQueues.RemoveFirst | clientlib/resourcequeue.c:114 | g_queue_remove leaves a queue without the command unchanged and otherwise shortens it by exactly one |
| ResourceQueues.RemoveFirstCounts | clientlib/resourcequeue.c:114 | g_queue_remove takes away exactly one occurrence of the command when there is one and leaves the count of every other command unchanged |
| ResourceQueues.RemoveFirstSplits | clientlib/resourcequeue.c:114 | the removed occurrence is the first one, and the commands before and after it keep their order |
| ResourceQueues.RemoveKeepsInvariant | clientlib/resourcequeue.c:114-118 | after the first occurrence leaves its queue, and the resource key goes when that queue empties, no queue is empty, every command is still in its own resource's queue, and the removed command still holds the spare reference the UNREF at line 118 drops |
| ResourceQueues.ReleaseQueue | clientlib/resourcequeue.c:125-138 | the data destructor drops one reference per queued occurrence of each command |
| ResourceQueues.ReleaseTable | clientlib/resourcequeue.c:80-83 | destroying the table runs the data destructor on every queue: each command loses one reference per occurrence in its queue |
| ResourceQueues.ResourceQueue.constructor | clientlib/resourcequeue.c:68-69 | a new queue system has an empty table, which satisfies the table invariant |
| ResourceQueues.ResourceQueue.Append | clientlib/resourcequeue.c:89-102 | the command goes at the tail of its resource's queue, creating the queue if absent (duplicates allowed); no other queue changes; one reference is taken; the invariant (no empty queue, commands in their own resource's queue, a reference per occurrence) is kept; from a mutually exclusive table, the result is mutually exclusive exactly when the command is not running or no other command of its queue is (the append never looks at `isrunning`) |
| ResourceQueues.AppendKeepsInvariant | clientlib/resourcequeue.c:89-102 | after the push at the tail no queue is empty and every command is in its own resource's queue, with at most one occurrence more than its references before the REF at line 100 |
| ResourceQueues.AppendExclusion | clientlib/resourcequeue.c:89-102 | on a table with at most one running command per resource, appending keeps that property exactly when the command is not running or is the only running command of its queue; a running command appended beside another running one breaks it |
| ResourceQueues.RemoveKeepsExclusion | clientlib/resourcequeue.c:104-122 | removing a command (and dropping an emptied queue) never gives a resource a second running command |
| ResourceQueues.ResourceQueue.Remove | clientlib/resourcequeue.c:104-122 | succeeds exactly when the command is in its resource's queue; then its first occurrence is removed, the resource key is deleted if the queue empties, and one reference is dropped; on failure the table and the count are unchanged; the invariant and mutual exclusion are kept |
| ResourceQueues.ResourceQueue.RunResource | clientlib/resourcequeue.c:161-180 | on one queue, a command is running afterwards exactly when it was running before or it is the command Chosen for that queue |
| ResourceQueues.ResourceQueue.RunQueue | clientlib/resourcequeue.c:150-182 | every queued command is running afterwards exactly when it was running before or it is the one Chosen on its own resource's queue (independent of the order the table is visited in); no queue changes; at most one running command per resource is preserved |
| ResourceQueues.ResourceQueue.RunPreservesExclusion | clientlib/resourcequeue.c:163-180 | a pass with that per-command effect keeps every resource at no more than one running command |
| ResourceQueues.ResourceQueue.Destroy | clientlib/resourcequeue.c:75-83 | finalization empties the table and drops one reference per queued occurrence of each command |
| ConfigContexts.ConfigContext.constructor | clientlib/configcontext.c:49-75 | a new context holds no values |
| ConfigContexts.ConfigContext.GetType | clientlib/configcontext.c:97-107 | CFG_EEXIST exactly for a name with no value, otherwise the type of the stored value |
| ConfigContexts.ConfigContext.GetInt | clientlib/configcontext.c:110-126 | the stored integer for an integer value, -1 for an absent name or a value of another type |
| ConfigContexts.ConfigContext.GetString | clientlib/configcontext.c:142-157 | the stored string exactly when the value is a string, NULL otherwise |
| ConfigContexts.ConfigContext.GetAddr | clientlib/configcontext.c:175-190 | the stored address exactly when the value is an address, NULL otherwise |
| ConfigContexts.ConfigContext.GetFrame | clientlib/configcontext.c:207-222 | the stored frame exactly when the value is a frame, NULL otherwise |
| ConfigContexts.ConfigContext.SetInt | clientlib/configcontext.c:129-139 | replaces any value under the name by the integer, leaving other names alone; gettype and getint then report it and the other getters report nothing |
| ConfigContexts.ConfigContext.SetString | clientlib/configcontext.c:160-171 | replaces any value under the name by the string, leaving other names alone; gettype and getstring then report it, getint gives -1 |
| ConfigContexts.ConfigContext.SetAddr | clientlib/configcontext.c:193-204 | replaces any value under the name by the address, leaving other names alone; gettype and getaddr then report it |
| ConfigContexts.ConfigContext.SetFrame | clientlib/configcontext.c:225-237 | replaces any value under the name by the frame, leaving other names alone; gettype and getframe then report it |
| ConfigContexts.QuotedAppend | clientlib/configcontext.c:251-256 | escaping works character by character, so it distributes over concatenation |
| ConfigContexts.QuotedLength | clientlib/configcontext.c:251-256 | the output is as long as the input plus the number of backslashes and double quotes in it |
| ConfigContexts.QuotedIdentity | clientlib/configcontext.c:246-248 | a string with no backslash and no double quote is returned unchanged |
| ConfigContexts.UnquoteQuoted | clientlib/configcontext.c:251-256 | dropping each escaping backslash from the output gives the input back |
| ConfigContexts.JsonQuoteString | clientlib/configcontext.c:241-261 | the loop emits every character in order, a backslash in front of each backslash and double quote; an input without either is returned as is |
| ConfigJsonParser.ToGint | clientlib/configcontext.c:477-479 | the scanned 64-bit integer passed as setint's gint keeps its low 32 bits (two's complement), so values below 2^31 are unchanged |
| ConfigJsonParser.PairSpec | clientlib/configcontext.c:444-525 | a pair consumes at least its name token when it starts with a string, never moves past the input, and changes no value when it fails |
| ConfigJsonParser.MembersSpec | clientlib/configcontext.c:429-441 | reading members never moves backwards or past the input |
| ConfigJsonParser.ObjectSpec | clientlib/configcontext.c:399-428 | parsing an object never moves backwards or past the input |
| ConfigJsonParser.ParseObject | clientlib/configcontext.c:399-428 | the parser as written returns NULL exactly when the object parse fails, otherwise a new context holding the parsed values, and leaves the scanner where the parse ends |
| ConfigJsonParser.ParseMembers | clientlib/configcontext.c:429-441 | the loop over comma-separated pairs leaves the context and the scanner as the members parse describes, ignoring failed pairs |
| ConfigJsonParser.ParsePair | clientlib/configcontext.c:444-525 | reading one pair and calling the setters has exactly the result, values and scanner position of the pair parse |
| ConfigJsonParser.MissingCloseCurly | clientlib/configcontext.c:415-427 | when the token after the members is not `}` the result is NULL, whatever pairs were read, and that token is consumed |
| ConfigJsonParser.FailedPairSkipped | clientlib/configcontext.c:429-441 | a failed pair is not an error: when a comma follows where it stopped, reading resumes after the comma with the values unchanged |
| ConfigJsonParser.MalformedMembersAccepted | clientlib/configcontext.c:429-441 | malformed members are accepted: `{"a"}` parses to an empty context and `{"a", "b": 1}` to one holding only b |
| ConfigJsonParser.EmptyObject | clientlib/configcontext.c:409-413 | `{}` parses to an empty context |
| ConfigJsonParser.MissingOpenCurly | clientlib/configcontext.c:403-406 | without an opening `{` the result is NULL and nothing is consumed |
| ConfigJsonParser.ScalarPair | clientlib/configcontext.c:471-497 | a string value is stored as a string, an integer as a (32-bit) integer, and a G_TOKEN_SYMBOL `true` as 1, `false` and `null` as 0, replacing any earlier value (this file's scanner never reports the symbols that way, see ConfiguredSymbolFails) |
| ConfigJsonParser.ConfiguredSymbolFails | clientlib/configcontext.c:383-391 | with symbol_2_token set, `true`, `false` and `null` arrive with their value as the token type, fall to the default case of the pair switch (lines 513-518), and `{"name": true}` parses to NULL |
| ConfigJsonParser.UnsupportedValueFails | clientlib/configcontext.c:506-518 | a float, an array, an identifier, another character or a symbol reported by its value makes the pair fail before the value is consumed |
| ConfigJsonParser.NestedObjectDiscarded | clientlib/configcontext.c:500-504 | a nested object is parsed and thrown away, and the pair still succeeds |
| ConfigJsonParser.MembersOfEncoded | clientlib/configcontext.c:429-441 | comma-separated scalar pairs are read up to the first token that is not a comma, storing each pair in order |
| ConfigJsonParser.ParseFlatObject | clientlib/configcontext.c:399-441 | round trip: the tokens of a flat object of scalar pairs parse to the context holding those pairs, later pairs overriding earlier ones |
| CmaConfig.DictValidity | cma/cmaconfig.py:222-246 | a dict template accepts a dict exactly when every key has a template (any key with a `str` entry, else only template keys) and its value validates; template keys may be missing |
| CmaConfig.TemplateKinds | cma/cmaconfig.py:186-262 | a type template checks isinstance (int admits bools but not longs) and never raises; a set template accepts a hashable member, rejects a hashable non-member and raises TypeError for an unhashable value; a list needs a list or tuple whose every element validates (the empty one is valid); a dict needs something with keys, and for a tuple of other than one item the "is not a dict" message raises TypeError; any other template rejects everything |
| CmaConfig.ValidityTrichotomy | cma/cmaconfig.py:186-262 | a value is valid exactly when no order of the checks can return False and none can raise TypeError |
| CmaConfig.Validate | cma/cmaconfig.py:187-220 | _check_validity answers (True, '') exactly for a valid value; when it answers False some order of the checks fails, and when it raises TypeError some order reaches a set check on an unhashable value or a dict template with a tuple of other than one item |
| CmaConfig.ValidateList | cma/cmaconfig.py:250-262 | the loop checks the items in order and stops at the first that fails or raises; a non-list is rejected |
| CmaConfig.ValidateDict | cma/cmaconfig.py:223-246 | the loop over the keys, in an order it does not choose, stops at the first key that is not allowed or whose value fails or raises; something without keys is rejected, except a tuple of 0 or of 2 or more items, which the `%` of line 228 takes as its argument list and so raises TypeError |
| CmaConfig.TupleUnderDictRaises | cma/cmaconfig.py:222-228 | with the shipped template, `heartbeats` set to the tuple (1, 2) can only raise TypeError, while the 1-tuple (1,) is only rejected |
| CmaConfig.ListUnderSetRaises | cma/cmaconfig.py:216-220 | with the shipped template, `compression_method` set to the list ["zlib"] can only raise TypeError, while the hashable tuple ("zlib",) is only rejected |
| CmaConfig.DictNeedsDictTemplate | cma/cmaconfig.py:196-206 | only a dict template accepts a dict (a set template cannot hash it) |
| CmaConfig.MergeConfigElems | cma/cmaconfig.py:151-166 | the loop over the default keys produces the merged configuration, or the TypeError, that the merge describes |
| CmaConfig.MergeElemInto | cma/cmaconfig.py:159-166 | one turn of the loop: a dict default is merged into the present value (or into a new empty context); another default is stored only when its key is absent; on a string or list configuration nothing can be stored, so the turn raises unless the key is `in` it and the default is not a dict |
| CmaConfig.MergeCovers | cma/cmaconfig.py:158-166 | after a merge every default key is `in` the configuration, at every nesting level |
| CmaConfig.MergeKeepsPresent | cma/cmaconfig.py:152-166 | the merge keeps every key and never overwrites a present value (lists are kept whole); only dict defaults reach into present values; absent keys get the default |
| CmaConfig.MergeIntoEmpty | cma/cmaconfig.py:158-166 | merging into an empty configuration gives the defaults, with new empty contexts filled for nested dicts |
| CmaConfig.MergeIdempotent | cma/cmaconfig.py:150-166 | merging the same defaults again changes nothing |
| CmaConfig.MergeOfValidIsValid | cma/cmaconfig.py:168-176 | when defaults and configuration are valid against a template, the merge raises nothing and its result is valid |
| CmaConfig.DefaultConfigIsValid | cma/cmaconfig.py:38-122 | the shipped default_config conforms to the shipped default_template |
| CmaConfig.ConfigFile.constructor | cma/cmaconfig.py:124-132 | a missing template or defaults are the class defaults; the configuration is what was loaded |
| CmaConfig.ConfigFile.IsValid | cma/cmaconfig.py:179-184 | validates the given configuration, or without one the class default_config, against the template, with the three outcomes of Validate; the default template accepts the default config |
| CmaConfig.ConfigFile.SetItem | cma/cmaconfig.py:142-147 | stores the value, then validates default_config: no error exactly when it is valid, ValueError only when a check can fail, TypeError only when a set check can raise, whatever was stored; never raises with the default template |
| CmaConfig.ConfigFile.CompleteConfig | cma/cmaconfig.py:168-176 | TypeError when the merge raises; otherwise the configuration becomes the merged one and is returned exactly when valid, with ValueError only when a check can fail and TypeError only when the validation can raise; valid defaults and configuration always complete |
| CmaConfig.HeartbeatNamesKept | cma/cmaconfig.py:159-166 | merging the heartbeat defaults into the tuple of their own names keeps the tuple: every name is `in` it |
| CmaConfig.HeartbeatsTupleMerged | cma/cmaconfig.py:168-171 | with the shipped defaults, the configuration {"heartbeats": ("repeat", "warn", "dead")} merges to the defaults with that tuple in place of the heartbeats dict |
| CmaConfig.HeartbeatsTupleRaises | cma/cmaconfig.py:172-176 | validating that merged configuration against the shipped template can only raise TypeError, so complete_config raises TypeError, not ValueError |
| AssimJson.JsonEscIsQuoted | cma/assimjson.py:48-53 | doubling backslashes and then escaping double quotes is exactly JSONquotestring's escaping (clientlib/configcontext.c:241-261) |
| AssimJson.JsonEscIdentity | cma/assimjson.py:48-53 | a string with no backslash and no double quote is left unchanged |
| AssimJson.JsonEscInvertible | cma/assimjson.py:48-53 | dropping the escaping backslashes gives the string back |
| AssimJson.ListForm | cma/assimjson.py:61-70 | a list or tuple is `[`, its items' serialisations joined by commas, `]`; the empty list gives `[]` |
| AssimJson.DictForm | cma/assimjson.py:72-80 | a dict is `{`, its `"escaped key":value` members joined by commas in key order, `}` |
| AssimJson.BoolsAreWords | cma/assimjson.py:85-92 | booleans serialise as `true`/`false`, never as the integer they equal |
| AssimJson.StringForm | cma/assimjson.py:94-98 | a string is written between double quotes with JSONquotestring's escaping, and unescaping the body gives it back |
| AssimJson.ObjectForm | cma/assimjson.py:100-114 | an object is written as the dict of its attributes not starting with `_`, in order, when their names need no escaping |
| AssimJson.AttributeNamesUnescaped | cma/assimjson.py:111 | attribute names are not escaped: an attribute named `a"b` is written differently from the dict key `a"b` |
| NetGSources.Route | clientlib/netgsource.c:155-158 | a FrameSet gets a listener exactly when its type or the NULL key has one, and its own type's listener takes precedence |
| NetGSources.OutcomeRule | clientlib/netgsource.c:153-163 | delivery goes to the type's listener, else to the default listener under the NULL key (type 0), else only a warning is issued |
| NetGSources.AddListenerRouting | clientlib/netgsource.c:197-206 | after registering, the type goes to the new listener; a NULL listener makes it fall back to the default; other types are unaffected unless the NULL key was replaced |
| NetGSources.DispatchHandlesEachOnce | clientlib/netgsource.c:151-166 | every received FrameSet is handled exactly once, in batch and list order |
| NetGSources.Prepare | clientlib/netgsource.c:113-121 | prepare always answers FALSE |
| NetGSources.NetGSource.constructor | clientlib/netgsource.c:109 | a new source has an empty listener table |
| NetGSources.NetGSource.Check | clientlib/netgsource.c:123-133 | check answers TRUE exactly when poll reported some event |
| NetGSources.NetGSource.AddListener | clientlib/netgsource.c:197-206 | the listener (possibly NULL) replaces the table entry for the type, and a non-NULL listener then receives that type; the entry replaced must not be NULL, since the value destructor UNREFs it |
| NetGSources.NetGSource.Dispatch | clientlib/netgsource.c:139-168 | the nested loops over received batches produce exactly the deliveries and warnings Route dictates, and dispatch answers TRUE |

## Left out

- ResourceCmd: only its running flag, start time, reference count and resource name are modelled. `execute` is a method that only marks the command running; what it spawns lies outside these files.
- The real clock: `g_get_monotonic_time` is the parameter `now`.
- The order in which the hash tables and dicts are visited is not modelled. RunQueue, MergeConfigElems and ValidateDict pick an arbitrary unvisited key. The results of the first two do not depend on the choice. Whether ValidateDict answers False or raises TypeError can depend on it, and its contract admits exactly the outcomes some order can give.
- Memory management: string copies, `g_free`, queue and hash-table allocation, key destructors, `ismalloced`. Reference counts are kept only for queued ResourceCmds. Listener reference counts (`netgsource.c:202-204`) are not modelled.
- ConfigContext values other than those the four setters create (booleans, floats, arrays, nested contexts), and `_configcontext_toString` with its unspecified hash order.
- The GScanner configuration: the parser works on a list of already-scanned tokens. An integer token carries the unsigned 64-bit value of its digits; a minus sign is a separate character token.
- ConfigJsonParser.ScalarPair: the `true`/`false`/`null` half holds only for a scanner that reports them as G_TOKEN_SYMBOL. The scanner made at configcontext.c:383 sets symbol_2_token, which per GLib's documentation reports a symbol with its value as the token type, so that branch (lines 482-497) is not reached; ConfiguredSymbolFails states the outcome then. GLib's scanner is not part of this model.
- ConfigContexts.JsonQuoteString, Quoted: strings are taken to be NUL-free, as the C strings they model are.
- ConfigJsonParser.PairSpec, MembersSpec, ObjectSpec: their own contracts only bound the scanner position; what they compute is stated by the lemmas from MissingOpenCurly to ParseFlatObject and by the parser methods proved equal to them.
- ConfigJsonParser.ParseObject: the context released on a syntax error is not modelled, only the NULL result.
- CmaConfig: the explanation strings of `(bool, message)` results; only the verdict is modelled. Loading a configuration from a file is the `loaded` constructor argument.
- CmaConfig: dicts and pyConfigContext objects are one kind of value, taken to be unhashable; the pyConfigContext class is not part of this model. Foreign classes (pyNetAddr, pySignFrame, pyCompressFrame) are class tags, taken to be hashable. `1 == True` and other Python equality between kinds are not modelled for set membership.
- CmaConfig.IsInstance: a 64-bit Python 2 is assumed, so an integer outside -2^63 to 2^63-1 is a `long` and fails an `int` template.
- CmaConfig.ValidateList: a list template always has an element template; the IndexError that `template[0]` raises for an empty list template (cmaconfig.py:255) is not modelled.
- CmaConfig: `in` on a foreign object is taken to raise TypeError.
- CmaConfig.MergeConfigElems: the merge works on values, not in place. After a TypeError the partly merged configuration Python leaves behind is not modelled. The sharing of default sub-objects stored into the configuration is not modelled either.
- CmaConfig.ConfigFile.CompleteConfig: on TypeError the new configuration is left unspecified.
- AssimJson: floats and pyConfigContext values are written as the text their `str()` gives, and so are addresses. The `unicode` encoding through `str()` is not modelled. `expand_JSON` re-parsing of `JSON_` attributes (lines 107-110) is not modelled.
- AssimJson: the key order of dicts and objects is taken as given.
- AssimJson.JsonStr: values that make `_jsonstr` raise are not representable. None, sets and longs reach `thing.__dict__` (line 103) and raise AttributeError; a dict key that is not a string makes `_jsonesc` raise TypeError. The model does not capture these failures.
- NetGSources.NetGSource.AddListener: replacing a NULL entry passes NULL to `_netgsource_del_listener` (netgsource.c:47-51), which UNREFs it; the model requires the replaced entry not to be NULL. Destroying a table that holds a NULL entry does the same; the finaliser is not part of this model.
- NetGSources: GSource creation and finalisation, the poll descriptor, the debug message for unknown events, `recvframesets` and the network. The received batches are a parameter, and got_frameset is recorded as a delivery.

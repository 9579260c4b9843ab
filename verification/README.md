# libusbgx in Dafny

libusbgx configures USB gadgets through configfs. It keeps a tree of handles in memory (gadgets, functions,
configurations, bindings, UDCs) that mirrors directories, attribute files and links of configfs, and it can export a gadget
to a tree of named settings (a scheme) and import it again. This project models that library in Dafny, proves each
operation against a specification over configfs, and proves what holds across operations and over whole runs.

Check everything with `dafny verify dfyconfig.toml`.

## The modules

| file | what it holds |
|---|---|
| Text, Numbers, Names, Codecs | ordering of names, `strtol` and `printf`, function and configuration names, labels, MAC and GUID text |
| Kernel | configfs: a tree of gadgets with attribute files, LUNs and links; system calls that may be made to fail |
| Settings | scheme trees and the attribute tables of the function types (module `Attributes`), export, import and their round trip |
| Records, Strings, OsDescs | gadget and configuration attributes, strings per language, OS descriptors |
| MassStorage | the LUN bitmap and the reconciliation of LUNs with a request |
| Handles | the handle classes, and what it means that memory agrees with configfs |
| Creation, Removal, UdcLinks | the calls that change the handle tree |
| Parsing | `usbg_init`; fresh parses agree with live trees |
| Schemes, SchemeExport, SchemeImport, RoundTrip | what schemes mean, as functions; the walks that write and read them; what comes back |
| Exports, Imports | when an export or an import succeeds, told from files and members by their names, and what it writes where |
| Machine, Traces | the eighteen requests and what each makes of configfs and memory, in names; finite sequences of them |
| Runs | the calls on handles follow those steps, one by one and in any finite run |
| Sessions | what a program sees over several calls: parse and parse again, copy a gadget, set and read LUNs, take a gadget down |
| Examples | the library's example program and the schemes of its documentation, down to the text of every file |

## What configfs does

`Kernel.ConfigFs` holds the tree, the UDCs, the contents of new directories (`defaults`) and a list of outcomes (`faults`):
a system call takes the next outcome, and a call that would succeed fails with it when it is an error. With no outcomes left
(`Quiet`) calls fail only for a reason of their own. So "for every state" covers every choice of calls that fail.
These rules are assumed of the kernel:

- a directory can be removed only when it has no links or user-made children, and no link leads to it; LUN 0 cannot be removed;
- a new gadget has an empty UDC file and no functions, configurations, links or languages; a new function has no LUN but LUN 0,
  and a mass storage function has that one;
- a link in a configuration leads to a function of the same gadget, the link in `os_desc` to one of its configurations;
- a UDC goes to one gadget at most, and no UDC is named by the empty string;
- there is one writer, and the kernel may detach a gadget between calls.

Names are single path components. Objects are never freed: a pointer to an object that left its list is stale, and `Valid`
says which pointers may be.

Four notions carry the results. `State.Valid` (memory agrees with configfs: every handle has its directory, links and
bindings are the same, lists are sorted, keys are unique) holds after every call whatever fails; directories that memory does
not know may be left behind by rollbacks. `Runs.Sound` adds the links between gadgets and UDCs and that functions can be
taken away again. `Parsing.Exact` says that nothing is missing on either side, and a fresh parse gives the same tree if and
only if that is so. `Machine.Open` names what may be missing: a record for the OS descriptors without its link, a detachment
nobody noticed, an attachment memory has dropped, and directories a rollback left; `Exact` holds exactly when there is none
(`Runs.ExactIff`). `Machine.Opens` and `Machine.Closes` say which request opens and which closes each of them.

## Where the code departs from its documentation or its own intent

The model follows the code. Each point is proved, or is part of the specification that the methods meet:

- Clearing the OS descriptor binding removes the link but keeps the pointer (`src/usbg.c:2492-2525`): a second set is refused,
  a retried removal of that configuration reports NOT_FOUND (`Removal.SetOsDescConfig`, `Removal.RmConfig`), and the mirror is
  no longer complete until the gadget goes (gap `Stale`).
- `usbg_get_udc_gadget` dereferences NULL exactly when it could read the UDC file and that does not name the UDC, as after
  a detachment by the kernel; when it could not, it clears both pointers although the gadget may still be attached, which only a
  later attachment, detachment or removal mends (`UdcLinks.GetUdcGadget`, gap `Forgotten`).
- `usbg_enable_gadget` leaves a previous owner of the UDC with its pointer: `Machine.MatchedMoved` states that this is the one
  request that ends the two-way matching. `usbg_rm_gadget` leaves the UDC's pointer: `UdcLinks.RemoveGadget` and
  `Runs.RunDropGadget` state exactly when that is harmless, and `Sessions.TakeDown` when the example program gets it wrong.
- The rollbacks of creation use a plain rmdir and ignore its result: `Creation.CreateGadget`,
  `CreateFunction` and `CreateConfig` state exactly when something stays.
- A label is split at its first underscore, so the generated label of a mass storage function never splits; a label without
  underscore is taken for one that names no function. Bindings are exported with the generated label even when the function is exported under
  another: `RoundTrip.LabelResolution` states exactly which bindings still resolve.
- The getter for booleans returns 0 when it finds one (`src/usbg_common_libconfig.c:33-57`), against the contract in
  `include/usbg/usbg_internal.h:378-383`: importers skip every boolean. A report descriptor byte of 128 or more is exported
  negative and refused on import, where `char` is signed. `Attributes.AttributesRoundTrip` states exactly which values come back;
  an empty report comes back as one zero byte.
- An import of OS descriptors drops the error of binding the configuration (`SchemeImport.ImportGadgetOsDescs`, `UpToLink`) and
  fails without `qw_sign` (`Schemes.SignRequired`).
- A language group without `configuration` is refused, although the documentation calls it optional.
- `usbg_f_ms_set_attrs` takes the attributes from the entry at the position of the LUN, not from the entry that asked for it
  (`MassStorage.OwnAttributesIff`, `SwappedIdsMixUp`); for a LUN just behind the list it makes one without the attributes asked for,
  or reads through NULL (`PastTheEnd`). Its rollback removes nothing (`MsFunction.Rollback`, `FailureUndoneIff`, `RollbackLeavesLun`).
- LUNs with a gap in their numbers do not survive an export and an import: those behind the gap get other numbers
  (`RoundTrip.MsRoundTrip`).
- Without failures an import of a whole gadget removes what it made, although nested imports of functions have no rollback.
- Not every configuration that can be made can be parsed again: an empty label cannot (`Parsing.ExactParses`).
- The number in the name of a configuration goes through `strtol` into an `int`: one that is an id modulo 2^32 is taken for
  that id (`Names.ConfigNameReads`).
- The featured example of a configuration scheme gives two bindings the same name, and cannot be imported
  (`Examples.FeaturedRefused`).

## Model

| member | source | states |
|---|---|---|
| Runs.Run | src/usbg.c:1221-2592 | any finite run of the eighteen requests, any system call made to fail: the view moves by the step of each request; the state stays sound unless a gadget is removed that a UDC still points at; at the end memory mirrors configfs completely if and only if no gap is left that was there or was opened and no later request closed; gadgets and UDCs still point at each other unless a UDC was given away while it pointed at another gadget |
| Runs.Perform | src/usbg.c:1221-2592 | one request: tree, memory and UDC pointers change as its step says, with the exact code when nothing fails, and the state stays sound unless a claimed gadget goes |
| Machine.GapsMoved | src/usbg.c:1221-2592 | a difference between memory and configfs is there after a request exactly when the request opens it, or it was there and the request does not close it; which differences each request opens and closes is said case by case |
| Traces.GapsAtTheEnd | src/usbg.c:1221-2592 | a difference is there at the end of a run exactly when it was there before or an event opened it, and no later event closed it |
| Traces.CompleteKept | src/usbg.c:1221-2592 | a complete mirror stays complete over any number of bindings made and removed, records set, attachments, detachments, function removals and imports into a gadget, whatever fails, and over imports of gadgets and creations without strings or function attributes as long as nothing fails |
| Machine.MatchedMoved | src/usbg.c:2548-2574 | a two-way matching of gadgets and UDCs survives a request if and only if it does not attach a gadget to a UDC that still points at another one |
| Traces.MatchingKept | src/usbg.c:2548-2574 | so it survives every run without such an attachment, queries and detachments by the kernel included |
| Sessions.ParseAgain | src/usbg.c:1091-1134 | parse, run any requests, parse again: the fresh tree equals the live one if and only if every gap the run opened was closed again; where it was, the second parse succeeds exactly when every configuration has a label |
| Sessions.Copy | src/usbg_schemes_libconfig.c:776-847 | exporting a completely mirrored gadget and importing it under another name makes a gadget that says the same if and only if its files are there and readable with usable labels (`Exports.GadgetTellable`), the name can be taken and each part survives |
| Exports.GadgetExport | src/usbg_schemes_libconfig.c:658-718 | a gadget can be exported if and only if its files are there and readable, each function has a type with an exporter and a valid label no other group has, generated labels are shorter than 40, and language directories are numbers; the scheme then tells section by section and by name what the directory says |
| Examples.AcmEcm | examples/gadget-acm-ecm.c:36-147 | the example program, run on any sound state when nothing fails: its nine calls succeed and leave exactly the directories, attribute files, strings in `0x409`, links and UDC it describes |
| Examples.AcmEcmExported | examples/gadget-acm-ecm.c:36-147 | the gadget of that program, three functions and three bindings, can be exported |
| Examples.SchemeImported | doc/gadget_schemes.txt:209-266 | the documented gadget scheme, with a second configuration bound by a label alone and to a function defined in place, makes exactly the gadget it describes |
| Examples.FeaturedRefused | doc/gadget_schemes.txt:157-193 | the featured list of bindings is refused by every import, since two of them have the same name |
| Parsing.FreshParseAgrees | src/usbg.c:940-1002 | a live handle tree equals what a fresh parse builds (names, types, ids, binding targets, UDC links, recorded configuration, order of every list) if and only if it mirrors configfs completely |
| Parsing.ExactParses | src/usbg.c:228-259 | such a tree can be parsed again if and only if every configuration has a non-empty label |
| Parsing.Init | src/usbg.c:1091-1134 | `usbg_init` builds a complete mirror in which gadgets and UDCs point at each other, and succeeds exactly when every name can be taken apart |
| SchemeImport.ImportGadgetRun | src/usbg_schemes_libconfig.c:1621-1715 | all or nothing for every scheme tree: success adds exactly one gadget at its sorted place with the contents the scheme describes, failure leaves gadget list and configfs exactly as before when the removal it falls back on succeeds, and otherwise at most one gadget, known as far as it goes; the error code is exact when nothing fails |
| RoundTrip.GadgetRoundTrip | src/usbg_schemes_libconfig.c:658-718 | an exported gadget, imported under another name, has the same attributes, strings per language, functions, LUNs, configurations, bindings and OS descriptors if and only if each of its parts survives |
| RoundTrip.LiveGadgetRoundTrip | src/usbg_schemes_libconfig.c:776-801 | the same for the scheme that the walk over the lists of a live, completely mirrored gadget writes |
| RoundTrip.LabelResolution | src/usbg_schemes_libconfig.c:1008-1034 | after an import the generated label of a function finds that function if and only if it was exported under that label, or nobody was and it is no mass storage function |
| RoundTrip.OwnLabelFound | src/usbg_schemes_libconfig.c:1008-1034 | looking for the label a function was exported under finds that function after the import |
| Imports.OwnedLabel | src/usbg_schemes_libconfig.c:1008-1021 | a label that functions carry leads to the first of them in the list |
| Imports.UnownedLabel | src/usbg_schemes_libconfig.c:1022-1034 | a label nobody carries leads to a function if and only if it is a type other than mass storage and an instance with an underscore between, and the gadget has that function |
| Imports.StringBinding | src/usbg_schemes_libconfig.c:1037-1058 | a binding given as a string adds exactly one link, named like the directory of the function the label leads to, if and only if that link is new, the function is not bound yet and the name is valid |
| Imports.GroupBinding | src/usbg_schemes_libconfig.c:1108-1132 | a group links its target under its `name`, and without one under the name of the target directory; a name that is no string is refused |
| Imports.LabelTarget | src/usbg_schemes_libconfig.c:1072-1086 | the target of a group is what its label leads to |
| Imports.InPlaceTarget | src/usbg_schemes_libconfig.c:1087-1107 | a function defined in place is made with its type and instance, filled from its group, and is the target, if and only if it can be made and filled |
| Imports.NoBinding | src/usbg_schemes_libconfig.c:1060-1107 | the codes for settings that describe no binding |
| Imports.ExampleBinding | doc/gadget_schemes.txt:125-127 | the label `acm_usb0` makes the link `acm.usb0` |
| Sessions.NoBindingDangles | src/usbg.c:1301-1348 | in every sound state the target of a binding is in the function list of the same gadget and configfs has the link |
| Sessions.KeysUnique | src/usbg.c:2062-2067 | in every sound state lists are strictly sorted; gadget names, type and instance, configuration ids, binding names and binding targets are unique |
| Sessions.OsDescLinked | src/usbg.c:2459-2546 | in every sound state a link in `os_desc` leads to the recorded configuration, which is in the list of the gadget |
| Removal.RmGadget | src/usbg.c:1350-1402 | success removes exactly the subtree; a recursive removal stopped anywhere leaves memory and configfs agreeing with suffixes of the lists; when nothing fails it succeeds if and only if memory knows every directory and no os_desc record is stale, and its other codes are named |
| Removal.RmGadgetDir | src/usbg.c:1394-1398 | the plain removal: the gadget goes from memory and configfs, or nothing changes; its code is exact when nothing fails |
| UdcLinks.EnableGadget | src/usbg.c:2548-2574 | success moves gadget, UDC pointers and UDC file; from a two-way matching it leads to one if and only if the UDC had no other recorded owner |
| UdcLinks.GetUdcGadget | src/usbg.c:1678-1701 | answers only what the UDC file confirms, and otherwise clears both pointers, also when the file could not be read; dereferences NULL if and only if the file was read and does not name the UDC; a matching stays a matching |
| MassStorage.MsFunction.SetAttrs | src/function/ms.c:442-495 | success writes `stall` and leaves exactly the wanted LUNs, each with the fields of the entry at its own position in the files of their names; a call that stops leaves the LUNs below reconciled and those above untouched; where it stops, with which code, and when it goes through NULL follows from request and directories; without LUN 0 in the request it fails |
| Attributes.AttributesRoundTrip | src/function/ether.c:107-157 | exporting an attribute table and importing it into a fresh function restores every writable attribute if and only if every report has bytes below 128 and is not empty and every boolean already has its default value; read-only ones keep their defaults whenever the import succeeds |
| Text.BelowMeans | include/usbg/usbg_internal.h:188-208 | the order of all lists: at the first difference the smaller character first, a proper beginning before the whole |
| Numbers.HexText | include/usbg/usbg_internal.h:260-262 | hex is written as "0x", then at least as many lower-case digits as the width, which denote the bit pattern, without a leading zero beyond the width |
| Numbers.HexTextFits | include/usbg/usbg_internal.h:261-262 | a number that fits the width has exactly that many digits |
| Numbers.DecimalText | include/usbg/usbg_internal.h:259 | decimal is written as a minus sign for negative numbers and digits without a leading zero, which denote the number |
| Numbers.StrtolReads | src/usbg_common.c:88-104 | white space, a sign, a prefix in base 16 and digits are read as the number they denote up to the limits of `long`, and reading stops at the first other character |
| Numbers.StrtolNothing | src/usbg_common.c:88-104 | a text without digits is read as 0, and nothing of it is used |
| Names.TypesByName | src/usbg.c:64-83 | the eighteen type names and the types they stand for |
| Names.LookupFunctionType | src/usbg.c:118-132 | the scan of the type table finds the index of the type with that name, or reports NOT_FOUND for exactly the other names |
| Names.SplitFunctionInstanceType | src/usbg.c:194-226 | cuts at the first dot and refuses empty parts and unknown types |
| Names.FunctionNameParses | src/usbg.c:194-226 | splitting `type.instance` returns both for every type and non-empty instance, dots included |
| Names.FunctionNameOnly | src/usbg.c:194-226 | a name parses to a type and an instance if and only if it is that type, a dot and that non-empty instance |
| Names.FunctionNameInjective | src/usbg_common.c:362-366 | distinct type and instance give distinct directory names |
| Names.ConfigNameParses | src/usbg.c:228-259 | splitting `label.id` returns both for every id from 1 to 255 and every label, dots included, except the empty one, which is refused |
| Names.ConfigNameReads | src/usbg.c:228-259 | a label, a dot, a sign and any digits: accepted if and only if the number fits `long` and is an id after it was cut down to `int` |
| Names.ConfigNameInjective | src/usbg.c:386-419 | distinct label and id give distinct directory names |
| Names.SplitFunctionLabel | src/usbg_schemes_libconfig.c:803-833 | cuts a label at its first underscore |
| Names.GeneratedLabelSplits | src/usbg_schemes_libconfig.c:803-833 | splitting inverts label generation for every type but mass storage, whose generated label never splits |
| Names.GeneratedLabelInjective | src/usbg_schemes_libconfig.c:35-40 | generated labels are injective over all types and instances, mass storage included |
| Names.LangNameParses | src/usbg.c:1806-1856 | the directory name of a language parses back to its number below 65535, and is refused for every other number |
| Names.LangNameText | src/usbg.c:1910 | the directory of a language is named "0x" and its number in lower-case hex without leading zeros |
| Names.LangDirReads | src/usbg.c:1806-1856 | a directory name in hex, with or without prefix, is the language it denotes if that is below 65535 |
| Numbers.DecimalReadsBack | src/usbg_common.c:88-104 | any `int` printed in decimal is read back by `strtol`, whatever follows the newline |
| Numbers.HexReadsBack | include/usbg/usbg_internal.h:259-262 | any `int` printed in hex at any width is read back, negative ones through their 32-bit pattern |
| Codecs.DecFile | src/usbg_common.c:237-253 | writing an `int` in decimal and reading the file gives it back |
| Codecs.HexFile | include/usbg/usbg_internal.h:259-262 | writing any `int` in hex at the widths the library uses and reading the file gives it back |
| Codecs.HexFileText | include/usbg/usbg_internal.h:260-262 | the text of a hex attribute file |
| Codecs.StringFile | src/usbg_common.c:128-149 | a string without newline that fits is read back unchanged |
| Codecs.ReadStringMeans | src/usbg_common.c:128-149 | what is read of a string file: the longest beginning that fits, up to the first newline |
| Codecs.MacParses | src/usbg_common_libconfig.c:76-91 | a printed MAC address parses back |
| Codecs.MacText | src/usbg_common.c:343-350 | the text of a MAC address: two lower-case digits per byte, colons between |
| Codecs.MacReads | src/usbg_common_libconfig.c:76-91 | a text is taken for a MAC address if and only if it starts with six bytes of one or two hex digits with colons between, and nothing or white space follows a last single digit |
| Codecs.BytesRead | src/usbg_common_libconfig.c:76-91 | and each byte has the value of its digits |
| Codecs.GuidParses | src/usbg_common.c:26-49 | any 16 bytes printed as a GUID parse back to the same bytes |
| Codecs.GuidText | src/usbg_common_libconfig.c:190-212 | the text of a GUID: two digits per byte, dashes before bytes 4, 6, 8 and 10 |
| Codecs.GuidPrintsBack | src/usbg_common_libconfig.c:190-212 | strict 36-character text parses and prints back up to letter case |
| Settings.AddFinds | src/usbg_common_libconfig.c:93-155 | adding a member to a group makes it findable, leaves the others, and is refused for a name that is taken |
| Attributes.ExportAttrs | src/function/ether.c:135-157 | the loop over the attribute table writes the members the specification lists and stops at the first error |
| Attributes.ExportTells | src/function/ether.c:135-157 | attributes are exported if and only if every exported one has a readable file; each member then tells what its file says, and there are no others |
| Attributes.ImportAttrs | src/function/ether.c:107-133 | the loop writes what the specification says, skips absent, read-only and boolean attributes, and stops at the first error |
| Attributes.ImportGives | src/function/ether.c:107-133 | any group is imported if and only if each writable member has an acceptable setting and a file; each such file then holds what its member gives, booleans apart, and no other file changes |
| Attributes.DeviceRead | src/usbg_common.c:402-425 | a device file is read as its two numbers |
| Attributes.ReadOfWrite | src/function/hid.c:47-89 | writing a value that was read gives that value again, except that an empty report becomes one zero byte |
| Attributes.ImportOfExport | src/function/hid.c:92-162 | what the importer of a kind makes of the node its exporter added |
| Attributes.ImportedFiles | src/function/hid.c:222-269 | an import of what was exported succeeds exactly when each writable value is importable, and then writes exactly the writable attributes that are not boolean |
| Records.WriteAll | src/usbg.c:1703-1749 | attribute writes go in order and stop at the first failure |
| Records.GetFields | src/usbg.c:797-854 | reads the record the files hold, cut down to the C types |
| Records.SetThenGetFields | src/usbg.c:1703-1749 | reading gadget or configuration attributes after setting them returns the same record |
| Records.GadgetAttrsByField | src/usbg.c:1703-1747 | setting the attributes of a gadget succeeds if and only if the eight files are there, and writes each in hex to the file of its name |
| Records.ConfigAttrsByField | src/usbg.c:2289-2308 | those of a configuration: `MaxPower` in decimal, `bmAttributes` in hex |
| Records.ImportAllFields | src/usbg_schemes_libconfig.c:1510-1552 | imports the optional attributes in order, with the range checks of the code |
| Records.ImportOneField | src/usbg_schemes_libconfig.c:1510-1552 | one optional attribute, with its range check |
| Records.FieldsImport | src/usbg_schemes_libconfig.c:1510-1552 | numbers are imported if and only if each member that is there is a number, in range where that is checked, and has a file; that file then holds it, others do not change |
| Imports.GadgetAttrsImport | src/usbg_schemes_libconfig.c:1510-1552 | the same for a gadget by file name, with the range of each |
| Imports.ConfigAttrsImport | src/usbg_schemes_libconfig.c:1215-1253 | and for a configuration, where no range is checked |
| Records.FieldsRoundTrip | src/usbg_schemes_libconfig.c:544-588 | exported attributes, imported elsewhere, read the same there |
| Strings.CheckDir | src/usbg_common.c:328-341 | makes the language directory when it is not there |
| Strings.SetLangStrings | src/usbg.c:1900-1935 | sets the strings of one language and touches no other; a failure may leave that one directory behind |
| Strings.GadgetStringsByField | src/usbg.c:1900-1935 | each string of a gadget goes to the file of its name in the directory of its language, a missing one leaves its file alone, and no other language changes |
| Strings.ConfigStringByField | src/usbg.c:2342-2366 | the string of a configuration goes to `configuration` and may not be missing |
| Strings.GetLangStrings | src/usbg.c:856-904 | reads the strings of one language |
| Strings.ParseLangNames | src/usbg.c:1806-1856 | every directory name must be a language number below 65535 |
| Strings.ExportLangList | src/usbg_schemes_libconfig.c:516-542 | one group per language, up to a language 0 |
| Exports.StringsExport | src/usbg_schemes_libconfig.c:516-542 | strings are exported if and only if every directory name is a number and, up to the first 0, each number has its strings in the directory the library names for it; one group per language, each string under its name |
| Strings.ImportOneLang | src/usbg_schemes_libconfig.c:1445-1484 | imports one language, with the error codes of the code |
| Imports.GadgetLangImport | src/usbg_schemes_libconfig.c:1445-1484 | strings of a gadget by name: when a group is accepted, and what it leaves in which directory |
| Imports.ConfigLangImport | src/usbg_schemes_libconfig.c:1159-1197 | the same for a configuration |
| Strings.ImportLangList | src/usbg_schemes_libconfig.c:1486-1507 | imports language after language |
| Strings.LangRoundTrip | src/usbg_schemes_libconfig.c:463-514 | one language comes back under its name with its strings |
| Strings.LangNamesDiffer | src/usbg.c:1900-1935 | distinct languages have distinct directories |
| Strings.StringsRoundTrip | src/usbg_schemes_libconfig.c:516-542 | exported strings come back in every language if and only if every language directory is named as the library names it, 0 excluded |
| OsDescs.SetOsDescs | src/usbg.c:2016-2049 | sets use, vendor code and sign, stopping at the first failure |
| OsDescs.OsDescsByField | src/usbg.c:2016-2048 | the three values go to the three files, signature first; without a signature nothing is set |
| OsDescs.GetOsDescs | src/usbg.c:906-938 | reads them |
| OsDescs.OsDescsRoundTrip | src/usbg_schemes_libconfig.c:590-656 | the OS descriptors of a gadget and the id of its recorded configuration come back |
| Schemes.SignRequired | src/usbg_schemes_libconfig.c:1554-1619 | an import of OS descriptors without `qw_sign` fails |
| Imports.OsDescsImport | src/usbg_schemes_libconfig.c:1554-1619 | descriptors are imported if and only if values are in range, there is a signature, the files are there and the configuration with that id exists; files and link are then as said |
| OsDescs.GetIface | src/usbg.c:2115-2148 | reads the descriptor of an interface |
| OsDescs.SetIface | src/usbg.c:2150-2177 | sets it; a missing compatible id is refused |
| OsDescs.ExportIfaceList | src/usbg_schemes_libconfig.c:349-371 | one group per interface the type has |
| OsDescs.ImportIfaceList | src/usbg_schemes_libconfig.c:891-949 | imports group after group and refuses interfaces the type does not have |
| Imports.IfacesImport | src/usbg_schemes_libconfig.c:890-949 | descriptors of interfaces are imported if and only if each group names the interface of the type and both strings; each interface then has the strings of the last group that names it |
| OsDescs.IfacesRoundTrip | src/usbg_schemes_libconfig.c:891-949 | the descriptors of the interfaces come back |
| MassStorage.MsFunction.InitLuns | src/function/ms.c:110-139 | adds to the bitmap exactly the LUN directories there are |
| MassStorage.MsFunction.GetLunMask | src/function/ms.c:141-150 | initialises the bitmap once; from then on it agrees with the directories |
| MassStorage.MsFunction.SetLunAttrs | src/function/ms.c:603-619 | changes the attribute files of one LUN only; success puts each field of the request into the file of its name |
| MassStorage.MsFunction.MakeLun | src/function/ms.c:519-554 | makes the directory and sets the attributes, or takes the directory away again |
| MassStorage.MsFunction.CreateLun | src/function/ms.c:519-554 | success adds exactly one LUN with the requested attributes; without failures a refusal changes nothing and its code is exact; the bitmap keeps agreeing |
| MassStorage.MsFunction.RmLun | src/function/ms.c:556-580 | success removes exactly that LUN, never LUN 0; the bitmap keeps agreeing |
| MassStorage.MsFunction.LunsToBe | src/function/ms.c:459-467 | the last request entry that asks for each LUN |
| MassStorage.MsFunction.Rollback | src/function/ms.c:488-491 | the rollback loop changes neither bitmap nor directories |
| MassStorage.MsFunction.Reconcile | src/function/ms.c:469-484 | one round: LUN `i` afterwards is as wanted, the others are untouched; its code and whether it goes through NULL follow from the request and the directories |
| MassStorage.MsFunction.ReconcileAll | src/function/ms.c:459-491 | all rounds: every LUN as wanted, or stopped at the first LUN at which the request and the directories make it stop, with that code |
| MassStorage.MsFunction.GetNluns | src/function/ms.c:507-517 | counts the marked LUNs |
| MassStorage.MsFunction.GetLunAttrs | src/function/ms.c:582-601 | reads one LUN |
| MassStorage.MsFunction.GetAttrs | src/function/ms.c:387-440 | reads every LUN into the slot of its number, on the LUN sets its array has room for; its code is exact when nothing fails |
| MassStorage.MsFunction.Remove | src/function/ms.c:337-356 | removes every LUN but LUN 0 |
| MassStorage.MsFunction.Export | src/function/ms.c:297-333 | exports stall and the marked LUNs in order |
| MassStorage.MsFunction.Import | src/function/ms.c:221-275 | imports LUN after LUN, creating those that are missing; the bitmap keeps agreeing |
| MassStorage.MarkedPrefix | src/function/ms.c:507-517 | when the LUNs form a prefix the count is its length |
| MassStorage.SetLunReadsBack | src/function/ms.c:582-619 | a LUN whose attributes were set reads back as the request, with its number filled in |
| MassStorage.SetLunByField | src/function/ms.c:45-75 | setting a LUN succeeds if and only if both strings are given and the six files are there; each field is then in the file of its name and no other file changes |
| MassStorage.ReadLunByField | src/function/ms.c:45-75 | a LUN can be read if and only if its six files are there, and each field comes from the file of its name |
| MassStorage.ReconciledByField | src/function/ms.c:442-495 | after reconciliation a wanted LUN has the fields of the entry at its position in its six files |
| Exports.MsExport | src/function/ms.c:297-340 | a mass storage function is exported if and only if `stall` and the six files of each LUN are there; one group per LUN in the order of their numbers, each member under its name |
| Imports.MsImport | src/function/ms.c:221-275 | the list of LUNs is required and has at most 16 groups; element i sets the two strings of LUN i, which is made where it is missing, and no other LUN changes |
| MassStorage.SetThenGet | src/function/ms.c:387-495 | with ids negative or equal to their position, a successful reconciliation leaves LUNs 0 to n-1 and reading gives the request with the ids filled in |
| MassStorage.WholeListIff | src/function/ms.c:407-436 | the list the getter fills ends with NULL, without one in between, if and only if the LUNs are numbered without gaps |
| Sessions.SetAndGet | src/function/ms.c:387-495 | set by a list of entries whose ids are negative or their position and read back: both calls succeed, `stall` and each field of each entry are in the file of their name, and the answer is the list with the ids filled in |
| Sessions.SetAny | src/function/ms.c:442-495 | after any successful set, exactly which LUNs have the attributes that were asked for them |
| MassStorage.OwnAttributesIff | src/function/ms.c:474-479 | a LUN gets the attributes of the entry that asked for it if and only if that entry and the one at its position carry the same values or, where the list has ended, it asked for those of a new LUN |
| MassStorage.SwappedIdsMixUp | src/function/ms.c:474-479 | a request that gets through and gives LUN 0 the attributes asked for LUN 1 |
| MassStorage.PastTheEnd | src/function/ms.c:474-479 | LUNs 0 and 2 asked for in two entries: where LUN 2 is missing it is made without the attributes asked for, where it is there they are read through NULL |
| MassStorage.FailureUndoneIff | src/function/ms.c:488-491 | a call that stops leaves no LUN of its own behind if and only if it had none to make before the one it stops at: the rollback undoes nothing |
| MassStorage.RollbackLeavesLun | src/function/ms.c:488-491 | a request at which the rollback leaves a LUN behind |
| MassStorage.LunZeroMustBeWanted | src/function/ms.c:556-580 | where LUN 0 is there, the reconciliation with a request without it stops there with NOT_SUPPORTED |
| Creation.InsertInOrder | include/usbg/usbg_internal.h:188-204 | the item goes in once, before the first name not below its own; the others keep their order, and a sorted list stays sorted |
| Creation.GetGadget | src/usbg.c:1154-1163 | finds the gadget of that name, or there is none |
| Creation.GetFunction | src/usbg.c:1165-1175 | finds the function of that type and instance, or there is none |
| Creation.GetConfig | src/usbg.c:1177-1186 | finds the configuration of that id and, when given, label, or there is none |
| Creation.GetUdc | src/usbg.c:1188-1197 | finds the UDC of that name, or there is none |
| Creation.GetBinding | src/usbg.c:1199-1208 | finds the binding of that name, or there is none |
| Creation.GetLinkBinding | src/usbg.c:1210-1219 | finds the binding to that function, or there is none |
| Creation.CreateEmptyGadget | src/usbg.c:1443-1491 | makes the directory and reads the UDC file, or takes the directory away again |
| Creation.MakeGadget | src/usbg.c:1493-1576 | success adds one gadget with the attributes and strings asked for; codes are exact, and after a failure something is left in configfs exactly when the strings had been started |
| Creation.CreateGadget | src/usbg.c:1532-1576 | `usbg_create_gadget` adds one gadget at its sorted place with the attributes and strings asked for; codes are exact, and so is when a failure leaves the directory behind |
| Creation.CreateGadgetVidPid | src/usbg.c:1493-1530 | adds one gadget at its sorted place with the two ids in hex in `idVendor` and `idProduct` and all else as the kernel made it; the code is exact when nothing fails; a failure leaves configfs as it was unless the rollback fails too |
| Creation.IdsReadBack | src/usbg.c:1506-1515 | ids written so are read as they were given |
| Creation.SetAllValues | src/function/ether.c:250-270 | success gives every writable attribute its value, also behind read-only ones, which are passed over; stops at the first error |
| Creation.SetValuesWrites | src/function/ether.c:250-270 | values are set if and only if every writable attribute has a file; each such file then holds its value, also behind a read-only one, and all others are as before |
| Creation.SetValuesReadBack | src/function/ether.c:250-270 | each of them reads back |
| Creation.NetByField | src/function/ether.c:250-270 | the attributes of a network function by file name, and that an interface name is refused |
| Creation.HidByField | src/function/hid.c:319-339 | those of a HID function |
| Creation.MidiByField | src/function/midi.c:180-197 | those of a MIDI function |
| Creation.LoopbackByField | src/function/loopback.c:159-175 | those of a loopback function |
| Creation.SetFunctionAttrs | src/usbg.c:2615-2623 | changes one function directory only, and sets what was asked; a non-empty interface name is refused; code, NULL dereference and LUNs left behind are exact when nothing fails |
| Creation.CreateFunction | src/usbg.c:2051-2113 | success adds one function at its sorted place with the attributes asked for; failure leaves the list, and at most that one directory; codes, and when the directory stays, are exact |
| Creation.CreateConfig | src/usbg.c:2179-2255 | success adds one configuration at its sorted place, with an id from 1 to 255 that was not in use; codes are exact, and so is when a failure leaves the directory behind |
| Creation.AddConfigFunction | src/usbg.c:2368-2439 | success adds one binding at its sorted place and one link; failure changes nothing; error codes are exact, and a function of another gadget is always refused |
| Removal.RmBinding | src/usbg.c:1221-1240 | removes one binding and its link, or changes nothing |
| Removal.SetOsDescConfig | src/usbg.c:2527-2546 | setting links and records; clearing removes the link and leaves the record; a second set is refused |
| Removal.RmOsDescLink | src/usbg.c:2492-2525 | removes the link in `os_desc`, or reports that there is none |
| Removal.RmAllBindings | src/usbg.c:1272-1277 | removes bindings from the front |
| Removal.StripConfig | src/usbg.c:1256-1289 | the recursive part: link in `os_desc`, bindings, strings; stopped early it has changed nothing else |
| Removal.RmConfigDir | src/usbg.c:1291-1295 | the plain removal |
| Removal.RmConfig | src/usbg.c:1247-1299 | success removes exactly that configuration; a failure leaves it with part of its contents gone; the code is exact when nothing fails |
| Removal.BindingsWithout | src/usbg.c:1340-1344 | removing a function nothing links to leaves every binding with a live target |
| Removal.NotToOne | src/usbg.c:2392-2396 | with at most one binding to a function, leaving out its bindings is taking out that one |
| Removal.UnbindFrom | src/usbg.c:1318-1330 | editing the list while it is walked removes exactly the binding to that function and keeps the others in order |
| Removal.UnbindAll | src/usbg.c:1311-1332 | in every configuration of the gadget the bindings to the function are gone and the others keep their order; a failure says which configurations were done |
| Removal.EmptyFunction | src/usbg.c:1334-1338 | what the type removes before the directory can go |
| Removal.RmFunction | src/usbg.c:1301-1348 | success removes exactly the function and, recursively, the bindings to it; stopped early the walked configurations have lost just those; the code is exact when nothing fails |
| Removal.RmAllConfigs | src/usbg.c:1368-1373 | removes configurations from the front until none is left or one fails |
| Removal.RmAllFunctions | src/usbg.c:1375-1380 | removes functions from the front until none is left or one fails |
| Removal.StripGadget | src/usbg.c:1359-1392 | the recursive part of the removal of a gadget |
| UdcLinks.AttachedMatched | src/usbg.c:2561-2570 | attaching keeps a two-way matching if and only if the UDC had no other recorded owner |
| UdcLinks.AttachedOk | src/usbg.c:2561-2570 | attaching keeps every UDC pointer answered by its gadget |
| UdcLinks.AttachExclusive | src/usbg.c:2561-2563 | a UDC file is written only when no other gadget has that UDC |
| UdcLinks.NoSharedGadget | src/usbg.c:1663-1674 | no gadget is claimed by two UDCs |
| UdcLinks.DisableGadget | src/usbg.c:2576-2592 | empties the UDC file and both pointers; a matching stays a matching |
| UdcLinks.GetGadgetUdc | src/usbg.c:1648-1676 | answers a UDC only when the UDC file was read and names it; clears the stale pointers exactly when it was read and does not name the recorded one; a matching stays a matching |
| UdcLinks.ClearedOk | src/usbg.c:1690-1698 | a UDC and its gadget letting go of each other keeps pointers sound and a matching a matching |
| UdcLinks.RemoveGadget | src/usbg.c:1394-1398 | after a removal the UDC pointers are sound if and only if no UDC still claims the gadget; the codes of the removal |
| Sessions.TakeDown | examples/gadget-vid-pid-remove.c:31-65 | ask, disable if the answer is a UDC, remove: memory is left with a pointer to a removed gadget exactly when the removal succeeded although the UDC file of an attached gadget could not be read; when nothing fails the gadget goes if and only if memory knows all of it and no record is stale |
| Parsing.ParseFunctions | src/usbg.c:479-522 | one handle per directory, in order; succeeds exactly when every name splits |
| Parsing.ParseBinding | src/usbg.c:571-618 | the handle of a link, with the function it leads to |
| Parsing.ParseBindings | src/usbg.c:620-655 | one handle per link, in order |
| Parsing.ParseConfig | src/usbg.c:734-763 | the handle of a configuration with its bindings; an id of 0 is passed over |
| Parsing.ParseConfigs | src/usbg.c:765-795 | one handle per directory, in order; succeeds exactly when no label is empty |
| Parsing.ParseOsDesc | src/usbg.c:657-731 | records the configuration the link in `os_desc` leads to |
| Parsing.ParseGadget | src/usbg.c:940-965 | the handle mirrors the directory completely, and the UDC points back at it |
| Parsing.ParseGadgets | src/usbg.c:967-1002 | one handle per gadget directory, in order, with gadgets and UDCs pointing at each other |
| Parsing.ParseUdcs | src/usbg.c:1004-1032 | one handle per UDC, in order |
| Sessions.Start | src/usbg.c:1091-1134 | what `usbg_init` builds is sound, a complete mirror and matched |
| Sessions.Refresh | src/usbg.c:1091-1134 | a second parse gives the handles of the live tree if and only if that one is a complete mirror |
| SchemeExport.ExportFunctionAttrs | src/usbg_schemes_libconfig.c:298-308 | the exporter of the function type; printer has none |
| SchemeExport.ExportFunctionBody | src/usbg_schemes_libconfig.c:375-410 | type, attributes and OS descriptors of a function |
| SchemeExport.ExportOneFunction | src/usbg_schemes_libconfig.c:421-453 | one group under the own or the generated label; a label used twice is refused |
| Exports.FunctionsExport | src/usbg_schemes_libconfig.c:413-461 | functions are exported if and only if each can be, under a valid label that no other group has, a generated one being shorter than 40; one group is added for each, in order, and tells name, instance, type, attributes and descriptors |
| Exports.FunctionExport | src/usbg_schemes_libconfig.c:366-410 | one function: exported if and only if its type has an exporter and the files it names are there and readable |
| Exports.GeneratedNameValid | src/usbg_schemes_libconfig.c:413-461 | a generated label can name a group if and only if the instance has only letters, digits and the characters * _ - |
| SchemeExport.ExportGadgetFunctions | src/usbg_schemes_libconfig.c:413-461 | the groups of all functions, in order |
| SchemeExport.ExportBindingList | src/usbg_schemes_libconfig.c:42-99 | each binding with its name and the generated label of its target |
| Exports.BindingsExport | src/usbg_schemes_libconfig.c:40-92 | bindings are exported if and only if the generated label of each target is shorter than 40; one group for each, with name and label |
| SchemeExport.ExportConfigBody | src/usbg_schemes_libconfig.c:216-261 | name, attributes, strings and bindings of a configuration |
| SchemeExport.ExportGadgetConfigs | src/usbg_schemes_libconfig.c:263-296 | the groups of all configurations with their ids, in order |
| Exports.ConfigsExport | src/usbg_schemes_libconfig.c:263-296 | configurations are exported if and only if each can be; one group for each, with id, label and sections |
| SchemeExport.ExportGadgetScheme | src/usbg_schemes_libconfig.c:658-718 | the whole tree; error code and tree are exactly those of the specification when nothing fails |
| SchemeImport.ImportFunctionAttrs | src/usbg_schemes_libconfig.c:845-855 | the importer of the function type |
| Imports.AttrsImport | src/usbg_schemes_libconfig.c:845-855 | attributes of a function, by type and file name: when a group is accepted and what it sets |
| SchemeImport.ImportFunctionRun | src/usbg_schemes_libconfig.c:951-1006 | creates the function and fills it; on a late failure the function stays |
| SchemeImport.ImportTracked | src/usbg_schemes_libconfig.c:951-1006 | into a gadget memory knows completely: it still does, whether the import succeeds or not |
| SchemeImport.ImportLabelledFunction | src/usbg_schemes_libconfig.c:1391-1435 | one group of the functions section; the group name becomes the label |
| Imports.LabelledImport | src/usbg_schemes_libconfig.c:1383-1443 | a group is imported if and only if it names a type and an instance of which a function can be made and its sections are accepted; the new directory is as its sections say, and its name becomes the label |
| Imports.FunctionFilled | src/usbg_schemes_libconfig.c:985-1004 | both sections of a function are optional; each that is there is set, nothing else |
| SchemeImport.ImportGadgetFunctions | src/usbg_schemes_libconfig.c:1383-1443 | all groups in order, up to the first failure |
| SchemeImport.LookupFunction | src/usbg_schemes_libconfig.c:1008-1034 | finds by own label first, by generated label after, and nothing else |
| SchemeImport.BindFunction | src/usbg_schemes_libconfig.c:1037-1058 | binds a function of the same gadget, with exactly the errors of the specification |
| SchemeImport.ImportBindingTarget | src/usbg_schemes_libconfig.c:1060-1132 | the function a binding group is for: looked up, or defined in place |
| SchemeImport.ImportBindingNode | src/usbg_schemes_libconfig.c:1037-1132 | one binding, as a string or as a group |
| SchemeImport.ImportConfigBindings | src/usbg_schemes_libconfig.c:1134-1157 | all bindings in order |
| SchemeImport.FillNewConfig | src/usbg_schemes_libconfig.c:1284-1310 | attributes and strings of a new configuration |
| SchemeImport.ImportConfigRun | src/usbg_schemes_libconfig.c:1255-1337 | adds one configuration as the scheme says, or adds none when the removal it falls back on succeeds; whatever fails, everything that was in the gadget is as before; the code is exact when nothing fails |
| Imports.ConfigImport | src/usbg_schemes_libconfig.c:1339-1381 | a configuration is made under its label and id if the id is in range and free and the name valid, filled, and given its bindings one after the other |
| Imports.ConfigNeeds | src/usbg_schemes_libconfig.c:1255-1275 | id and label are required |
| Imports.ConfigFilled | src/usbg_schemes_libconfig.c:1287-1315 | attributes and strings are optional, a group and a list |
| SchemeImport.ImportGadgetConfigs | src/usbg_schemes_libconfig.c:1339-1381 | all configurations in order |
| SchemeImport.ImportGadgetOsDescs | src/usbg_schemes_libconfig.c:1554-1619 | OS descriptors of a new gadget; an error of binding the configuration is dropped |
| SchemeImport.FillNewGadget | src/usbg_schemes_libconfig.c:1648-1673 | attributes and strings of a new gadget |
| Imports.NoSections | doc/gadget_schemes.txt:268-270 | a scheme without sections makes a gadget as the kernel does |
| Imports.SectionsTyped | src/usbg_schemes_libconfig.c:1638-1699 | sections that are there are groups or lists as documented |
| SchemeImport.MadeThenRemoved | src/usbg_schemes_libconfig.c:1700-1712 | removing a gadget that was just made gives back the configfs there was before |
| SchemeImport.TakeBackGadget | src/usbg_schemes_libconfig.c:1700-1712 | the fallback removal takes the whole new gadget back, always so when nothing fails; stopped early it leaves a gadget none of whose directories memory has lost |
| RoundTrip.TableRoundTrip | src/function/ether.c:107-157 | a table of attributes comes back if and only if each of its values survives |
| RoundTrip.ExportedLuns | src/function/ms.c:297-333 | without gaps the position of a LUN in the exported list is its number |
| RoundTrip.ImportedLuns | src/function/ms.c:221-275 | reading the list back succeeds exactly when each element can be read, and makes exactly those LUNs |
| RoundTrip.MsRoundTrip | src/function/ms.c:221-333 | stall and LUNs of a mass storage function come back with the same numbers if and only if the LUNs have no gap and include LUN 0, each attribute survives and `stall` has its default |
| RoundTrip.FunctionRoundTrip | src/usbg_schemes_libconfig.c:375-410 | a function comes back if and only if its attributes survive; its OS descriptors always do |
| RoundTrip.FunctionsRoundTrip | src/usbg_schemes_libconfig.c:413-461 | all functions of a gadget come back if and only if the kernel can make each and each survives |
| RoundTrip.BindingsRoundTrip | src/usbg_schemes_libconfig.c:42-99 | the bindings of a configuration come back, each with the same target, if and only if the label of each leads to its target |
| RoundTrip.ConfigRoundTrip | src/usbg_schemes_libconfig.c:216-261 | a configuration comes back under its label and id if and only if its language directories have the usual names and each binding finds its target |
| RoundTrip.ConfigsRoundTrip | src/usbg_schemes_libconfig.c:263-296 | all configurations come back if and only if each does |
| RoundTrip.PartsRoundTrip | src/usbg_schemes_libconfig.c:658-718 | functions and configurations together come back if and only if each function survives and each binding finds its target after the functions got their labels |
| RoundTrip.ExactWellNamed | src/usbg.c:940-965 | a completely mirrored gadget has what the round trip asks of names and links |
| Runs.RunMakeGadget | src/usbg.c:1532-1576 | sound before and after, and the view moves by its step: one bare gadget with the attributes and strings asked for, or nothing, or a directory in configfs only; exact code, and exactly when the directory stays |
| Runs.RunImportGadget | src/usbg_schemes_libconfig.c:1805-1847 | sound before and after, and the view moves by its step: one gadget that memory knows completely, with the contents of the scheme up to a dropped link in `os_desc`, or nothing unless the fallback removal failed; exact code |
| Runs.RunMakeFunction | src/usbg.c:2051-2113 | sound before and after, and the view moves by its step: one function with the attributes asked for, or nothing, or a directory in configfs only; exact code, and exactly when the directory stays |
| Runs.RunImportFunction | src/usbg_schemes_libconfig.c:1717-1760 | sound before and after, and the view moves by its step: one function as the scheme says; after a late failure the function stays in both; exact code |
| Runs.RunMakeConfig | src/usbg.c:2179-2255 | sound before and after, and the view moves by its step: one configuration with the attributes and string asked for, or nothing, or a directory in configfs only; exact code, and exactly when the directory stays |
| Runs.RunImportConfig | src/usbg_schemes_libconfig.c:1762-1803 | sound before and after, and the view moves by its step: directories come with their names in memory and nothing that was there changes; contents and code are those of the scheme where memory knows the gadget completely |
| Runs.RunBind | src/usbg.c:2368-2439 | sound before and after, and the view moves by its step: exactly one link that was not there, to a function of the same gadget, or nothing; exact code |
| Runs.RunUnbind | src/usbg.c:1221-1240 | sound before and after, and the view moves by its step: exactly one link less, or nothing; exact code |
| Runs.RunSetOs | src/usbg.c:2527-2546 | sound before and after, and the view moves by its step: link and record, only where there was no record, or nothing; exact code |
| Runs.RunClearOs | src/usbg.c:2492-2525 | sound before and after, and the view moves by its step: the link goes and the record stays, or nothing; exact code |
| Runs.RunAttach | src/usbg.c:2548-2574 | sound before and after, and the view moves by its step: UDC file and both pointers, or nothing; exact code |
| Runs.RunDetach | src/usbg.c:2576-2592 | sound before and after, and the view moves by its step: UDC file empty and both pointers gone, or nothing |
| Runs.RunAskUdc | src/usbg.c:1648-1676 | sound before and after, and the view moves by its step: configfs stays, the pointers go exactly when the UDC file was read and does not name the recorded UDC, and the answer is what the file confirms |
| Runs.RunAskGadget | src/usbg.c:1678-1701 | sound before and after, and the view moves by its step: configfs stays, the pointers go exactly when the file could not be read or does not name the UDC, and the program halts exactly in the second case |
| Runs.RunKernel | src/usbg.c:1660-1674 | a detachment by the kernel empties one UDC file and leaves memory alone; the state stays sound |
| Runs.RunDropConfig | src/usbg.c:1247-1299 | sound before and after, and the view moves by its step: one configuration less, in both, or part of its contents gone; exact code |
| Runs.RunDropFunction | src/usbg.c:1301-1348 | sound before and after, and the view moves by its step: one function and the bindings to it less, or other directories as they were; exact code |
| Runs.RunDropGadget | src/usbg.c:1350-1402 | one gadget less, in both, or memory and configfs have lost the same directories; the state is sound afterwards if and only if the call failed or no UDC pointed at the gadget; when nothing fails it succeeds exactly where memory knows all of the gadget and no record is stale |
| Runs.SoundView | src/usbg.c:1301-1348 | what a sound state shows agrees: memory is part of configfs, and UDC pointers are answered |
| Runs.ExactIff | src/usbg.c:940-1002 | a sound state mirrors configfs completely if and only if there is no gap |
| Runs.MatchedIff | src/usbg.c:1663-1674 | gadgets and UDCs point at each other in the handles exactly when they do in the view |
| Machine.NoGapIff | src/usbg.c:940-965 | what it means for one gadget that there is no gap: every directory known, record and link together, UDC pointer as the UDC file has it |
| Kernel.RmAllDirs | src/usbg_common.c:306-326 | removes language directories up to the first failure, and only those |

## Left out

- The attributes of UVC and UAC2 functions, and the attribute setters of their own; their types have names, directories and links here, but no attributes.
- The printer type has no exporter or importer in the library, and none here.
- The text grammar of libconfig, files and streams, error lines and texts. Of the grammar only the rule for names of settings is modelled, since it limits labels.
- `malloc` failures, `free`, path length limits other than the length of a generated label, and NULL checks on handles.
- Translation of `errno`: the system calls of the model report the library's codes.
- Names that contain a separator, and strings that contain NUL.
- Requests that ask for a LUN beyond the bitmap of 16 or beyond the NULL that ends their list are outside `MassStorage.InBounds`, because there the C code leaves its arrays. Creating or removing a LUN beyond the bitmap on its own is refused as the code does.
- MassStorage.MsFunction.GetAttrs: stated for LUN sets whose numbers fit an array of one more entry than there are LUNs, because for others the C code writes behind it.
- MassStorage.MsFunction.SetAttrs: what becomes of the LUNs is stated for a bitmap that agrees with the directories at the start, and the code for a function with LUN 0, as the kernel makes them.
- Creation.SetFunctionAttrs: for a mass storage function whose bitmap has not been read the resulting LUNs are stated for calls in which nothing fails, because a bitmap that could not be read is used all the same.
- Creation.CreateFunction: the same holds when it is given LUNs. The single read-only attribute of serial, phonet, FFS and 9PFS functions cannot be given to it here.
- The bitmap is a sequence of 16 booleans in a field, not an array, so that aliasing of it is not modelled.
- A label without an underscore makes the C code compute with a null pointer (`src/usbg_schemes_libconfig.c:812-813`); here such a label names no function.
- GUID text with signs or `0x` prefixes, which `sscanf` also accepts.
- SchemeExport.ExportGadgetScheme: error code and tree are stated for exports in which no system call is made to fail; then a mass storage function may export no LUNs, because a failure to read the bitmap is ignored.
- SchemeImport.ImportGadgetOsDescs: modelled for a gadget without a link in `os_desc`, as a new gadget is.
- SchemeImport.ImportConfigRun: contents and code are stated where memory knows every directory of the gadget; elsewhere, that nothing that was there changes.
- Runs.Run: calls that set attributes, strings or LUNs of what is there are not among its requests; the first two change nothing that memory mirrors; the last change LUN directories and bitmap, and can leave the two apart when system calls fail, as MassStorage states. A request for something no handle stands for is answered NOT_FOUND and not made.
- Runs.RunKernel: the kernel detaches between calls, not in the middle of one.
- The directories of configurations and the link in `os_desc` are taken to be named as the library names them where a parse is compared with a live tree (`Parsing.CanonicalTree`), and only mass storage functions to have LUNs above 0 (`Sessions.LunsApart`).
- RoundTrip.GadgetRoundTrip: for gadgets whose functions, configurations and links carry names the library gives them, and a kernel that gives new directories every attribute file the library knows.

# Proposal-to-slides pipeline: a Dafny model

This project models the decision and validation logic of a Python pipeline. The pipeline works in five steps:

1. It reads a markdown proposal template, or a "deal transfer" questionnaire.
2. From it, it extracts the project facts: client, camera count, AI modules, deployment method, alert channels and NVR.
3. It draws a Mermaid architecture diagram for the chosen deployment method.
4. It maps the proposal to a numbered slide-structure JSON and validates that structure, retrying generation up to a fixed budget.
5. It splices reference slides from a master deck into the generated deck.

A second tool checks the proposal template, reasoning file and checklist that a deal transfer is turned into.

Each Python file of the core is one Dafny module:

| module | file | what it holds |
|---|---|---|
| `DealTransfer` | template2slide/scripts/parse_deal_transfer.py | internet, security and preference extraction; the deployment decision tree; module and alert extraction |
| `ProposalParsing` | template2slide/scripts/parse_proposal.py | module-name filter, extraction priorities, alert order, NVR rule, `parse` validation |
| `Mermaid` | template2slide/scripts/generate_mermaid.py | style lines, inline module list, NVR visibility, dispatch, the varying parts of each diagram |
| `ReferenceSlides` | template2slide/scripts/insert_reference_slides.py | method normalisation, the initial deck, the sorted move list, the reorder loop with its position map |
| `ModuleExtraction`, `SlideMapping` | template2slide/scripts/map_to_slides.py | module and field extraction, bullets, requirement grouping, module grouping, slide numbering |
| `SlideValidation` | template2slide/scripts/subagent2_validate.py | `ValidationResult` and every `_validate_*` check |
| `ValidationLoop` | template2slide/scripts/generate_with_validation.py | the bounded generate/validate loop |
| `ArchitectureDriver` | template2slide/scripts/generate_from_deal_transfer.py | input classification, required fields, outcome |
| `OutputValidation` | dealtransfer2template/scripts/validate_output.py | template, reasoning and checklist checks; the exit decision |

`Wrappers`, `Text`, `Sequences` and `Deployment` hold shared definitions:

- `Option`/`Result`;
- ASCII case mapping, `strip`, `split`/`join`;
- order-preserving selection and de-duplication;
- the six deployment-method names.

Regular-expression matches are inputs to the model. Each is a record of booleans or captured strings, and the model states what the code does with them.

## Model

| member | source | states |
|---|---|---|
| DealTransfer.ExtractInternet | template2slide/scripts/parse_deal_transfer.py:132-163 | `is_stable` always equals `has_connection`. There is a connection exactly when the internet answer is affirmative. A bandwidth is recorded only for a Satellite connection. A connection type implies a connection. |
| DealTransfer.ExtractSecurity | template2slide/scripts/parse_deal_transfer.py:165-190 | `data_localization` is GDPR or a local preference. GDPR is exactly the GDPR answer. A local preference holds exactly when the deployment answer asks for local or on-premise. |
| DealTransfer.ContentPreference | template2slide/scripts/parse_deal_transfer.py:197-203 | The document-wide patterns yield only "hybrid" or "hybrid-training-local", and yield nothing exactly when none of the three hybrid patterns matches. |
| DealTransfer.ExtractPreference | template2slide/scripts/parse_deal_transfer.py:192-224 | A document-wide preference wins. Only when there is none is the deployment-method answer consulted. |
| DealTransfer.SectionHybridBranchDead | template2slide/scripts/parse_deal_transfer.py:202-214 | The section's hybrid branches never decide: a hybrid result always comes from the document-wide patterns, because those already match any text the section branch would. |
| DealTransfer.Determine | template2slide/scripts/parse_deal_transfer.py:226-290 | Any explicit preference decides first, with hybrid refined to hybrid-training-local when training is local. Without one, the content rules decide in order, each only when the earlier ones are silent: a remote site with a 4G or VPN bridge gives 4g-vpn-bridge, a remote site with mobility gives vimov, local hybrid inference gives hybrid, and local hybrid training gives hybrid-training-local. Each later rule gives its fixed method: security gives on-prem, no stable internet gives on-prem, low and high satellite bandwidth give on-prem and hybrid, a stable connection gives cloud. |
| DealTransfer.DetermineName | template2slide/scripts/parse_deal_transfer.py:226-290 | The decision is always one of on-prem, cloud, hybrid, hybrid-training-local, 4g-vpn-bridge and vimov. |
| DealTransfer.LastRulesUnreachable | template2slide/scripts/parse_deal_transfer.py:262-290 | The moderate-security rule and the final on-prem default never fire, on any input. |
| DealTransfer.SecurityForcesOnPrem | template2slide/scripts/parse_deal_transfer.py:248-263 | With no explicit preference and no remote or hybrid pattern, GDPR, data localisation or a local preference gives on-prem by the security rule. |
| DealTransfer.NoInternetForcesOnPrem | template2slide/scripts/parse_deal_transfer.py:262-267 | With the earlier rules silent, a missing internet connection gives on-prem by the internet rule. |
| DealTransfer.SatelliteBandwidthRule | template2slide/scripts/parse_deal_transfer.py:269-275 | With the earlier rules silent, any deal whose internet answer reads as a satellite link with a non-zero bandwidth gets on-prem by the low-bandwidth rule below 20 Mbps, and hybrid by the high-bandwidth rule at 20 or more. |
| DealTransfer.StableInternetRule | template2slide/scripts/parse_deal_transfer.py:277-283 | With the earlier rules silent and a connection that the satellite rule does not claim, a multi-site deal gets hybrid and any other gets cloud. |
| DealTransfer.FilterListItems | template2slide/scripts/parse_deal_transfer.py:90-97 | Every kept name is longer than 3 and shorter than 200 characters, does not start with "Answer:", and contains none of the five skip words. Every item whose stripped form passes the filter is kept, and every kept name is such an item. |
| DealTransfer.FilterListItemsAppend | template2slide/scripts/parse_deal_transfer.py:90-97 | Items are filtered one at a time: filtering two runs of items joined is filtering each and joining the results, so the kept names keep the input order. |
| DealTransfer.ExtractAiModules | template2slide/scripts/parse_deal_transfer.py:75-130 | At most 20 names. When the "List of VA use cases" list keeps a name, the result is its first 20 kept names in order. Otherwise, when the section list keeps one, it is that list's first 20. Either way every name passes the filter. Otherwise the names are distinct phrases of the document, and all of them when there are fewer than 20. |
| DealTransfer.ExtractAlertMethods | template2slide/scripts/parse_deal_transfer.py:292-307 | The result is never empty, follows the order Email, Dashboard, Mobile, Telegram, and holds no duplicates. Without an alert answer it is Email and Dashboard. With one, Email and Dashboard appear exactly when their pattern matched or nothing matched, and Mobile and Telegram exactly when their pattern matched. |
| DealTransfer.ChannelSelection | template2slide/scripts/parse_deal_transfer.py:296-307 | Selecting channels by four flags keeps the fixed order without duplicates, and each channel appears exactly when its flag is set. |
| Deployment.NameInjective | template2slide/scripts/parse_deal_transfer.py:226-290 | The six deployment methods have six different names. |
| ProposalParsing.ValidModuleNameRejects | template2slide/scripts/parse_proposal.py:212-221 | A name is valid exactly when it is non-empty, shorter than 100 characters and, lower-cased, contains none of the nine keywords. |
| ProposalParsing.ValidModuleNameIgnoresCase | template2slide/scripts/parse_proposal.py:217-219 | Validity depends only on the lower-cased name. |
| ProposalParsing.ValidNames | template2slide/scripts/parse_proposal.py:143-148 | Every stripped capture kept is a valid module name. |
| ProposalParsing.ValidNamesMembership | template2slide/scripts/parse_proposal.py:143-148 | A name is kept exactly when it is valid and is the stripped form of some capture. |
| ProposalParsing.ScanSection | template2slide/scripts/parse_proposal.py:163-184 | The section scan only appends valid names, after the ones already found. Once it has found names, it stops at the first blank line. |
| ProposalParsing.ScanEnd | template2slide/scripts/parse_proposal.py:174-184 | The scan breaks at the first blank line reached once some name has been found, or at the end of the section when there is none. |
| ProposalParsing.ScanSectionNames | template2slide/scripts/parse_proposal.py:163-184 | The scan adds exactly the valid name of every numbered or bulleted line before the line where it breaks, in order, and nothing else. |
| ProposalParsing.ExtractAiModules | template2slide/scripts/parse_proposal.py:132-210 | Every returned module passes the name filter. The requirement-section numbered list wins when it yields names. The result is empty exactly when all five sources yield nothing. |
| ProposalParsing.RequirementListWins | template2slide/scripts/parse_proposal.py:140-148 | Any valid numbered item of the requirement section is among the extracted modules. |
| ProposalParsing.FieldMethod | template2slide/scripts/parse_proposal.py:237-245 | The lower-cased deployment field is read in priority order: "cloud" gives cloud; otherwise "on-prem", "on premise" or "on-premise" gives on-prem; otherwise "hybrid" gives hybrid. There is no method exactly when none of these words occurs. |
| ProposalParsing.FieldMethodIgnoresCase | template2slide/scripts/parse_proposal.py:240 | The field's case does not change the method it names. |
| ProposalParsing.ExtractDeploymentMethod | template2slide/scripts/parse_proposal.py:223-260 | The result is only cloud, on-prem, hybrid or nothing. The sources are tried in order: architecture section, then the `**Deployment Method:**` field, then the whole document. Within the section, cloud is checked before on-prem, and on-prem before a lone hybrid. A field naming a method decides whenever the section is silent. The document is consulted only when both are silent, and there cloud is tried before on-prem. Hybrid never comes from the document. There is no result exactly when every source is silent. |
| ProposalParsing.FieldBeforeContent | template2slide/scripts/parse_proposal.py:236-252 | Without an architecture section, a field naming on-premise gives on-prem even when the document mentions the cloud. |
| ProposalParsing.AlertSelection | template2slide/scripts/parse_proposal.py:271-284 | Section alert channels come in the order Email, Telegram, Dashboard, Mobile, SMS, WhatsApp. There are no duplicates, and a channel appears exactly when its pattern matched. |
| ProposalParsing.ExtractAlertMethods | template2slide/scripts/parse_proposal.py:262-300 | Section channels win when any is found; otherwise the document-wide Email/Telegram/Dashboard matches are used. The result is in the fixed order without duplicates, and is empty exactly when nothing matched. |
| ProposalParsing.IncludeNvr | template2slide/scripts/parse_proposal.py:302-322 | NVR is left out exactly when it is mentioned and marked optional, or when it is not mentioned and the deployment is cloud. |
| ProposalParsing.MissingFieldsListed | template2slide/scripts/parse_proposal.py:389-397 | The missing-field list follows the order client, deployment, camera, modules. Each field is listed exactly when missing, and the list is empty only when nothing is missing. |
| ProposalParsing.Parse | template2slide/scripts/parse_proposal.py:48-427 | Unresolved template placeholders fail first, with their count. Otherwise parsing fails exactly when client, deployment, camera count or modules is missing, and the error lists precisely those fields in that order. On success every value is the extracted one, with no defaults: project name, client, deployment method, camera count, AI modules (non-empty and valid), alert methods, and `include_nvr` computed from the NVR signals and the deployment method. `list_ai_modules` and `compact_mode` are set. |
| Mermaid.ModuleStyles | template2slide/scripts/generate_mermaid.py:17-24 | No modules give the empty string. Otherwise splitting the result on newlines gives exactly one style line per module, for Mod_1 to Mod_n in order. |
| Mermaid.StyleLinesDistinct | template2slide/scripts/generate_mermaid.py:22-23 | Style lines for different module positions differ. |
| Mermaid.DropTrailingParenthetical | template2slide/scripts/generate_mermaid.py:34 | Removing a trailing parenthetical leaves a prefix of the name. |
| Mermaid.ParentheticalRemoved | template2slide/scripts/generate_mermaid.py:34 | When the trimmed name ends in a parenthetical, exactly that part and the spaces before it are removed. |
| Mermaid.NoParentheticalKept | template2slide/scripts/generate_mermaid.py:34 | A name that does not end in ')' is unchanged. |
| Mermaid.ShortName | template2slide/scripts/generate_mermaid.py:32-38 | A cleaned name that fits is kept. A longer one becomes its first `max_length`-3 characters plus "...", exactly `max_length` long. |
| Mermaid.FormatInline | template2slide/scripts/generate_mermaid.py:26-39 | No modules give "". Otherwise the shortened names appear in input order, joined by "<br/>". |
| Mermaid.FormatInlineBound | template2slide/scripts/generate_mermaid.py:26-39 | With the default limit of 50, the inline list is at most 55 characters per module. |
| Mermaid.PlainNameShownAsIs | template2slide/scripts/generate_mermaid.py:33-38 | A stripped name of 1 to 50 characters that does not end in ')' is shown unchanged. |
| Mermaid.ShouldShowNvr | template2slide/scripts/generate_mermaid.py:41-54 | An explicit `include_nvr` decides. Otherwise the NVR is shown for every method except cloud. |
| Mermaid.Dispatch | template2slide/scripts/generate_mermaid.py:553-572 | The method is lower-cased, defaulting to "on-prem". It is accepted exactly when it is one of the nine aliases, and then draws that alias's layout. Otherwise it is rejected with the lower-cased name. |
| Mermaid.DispatchIgnoresCase | template2slide/scripts/generate_mermaid.py:555 | A name and its lower-cased form are dispatched alike. |
| Mermaid.DispatchName | template2slide/scripts/generate_mermaid.py:555-570 | Each of the six method names, in any letter case, selects its own generator. |
| Mermaid.DispatchDefault | template2slide/scripts/generate_mermaid.py:555 | With no method, the on-prem generator is used. |
| Mermaid.DispatchRejectsUnknown | template2slide/scripts/generate_mermaid.py:571-572 | Any name raises exactly when its lower-cased form is none of the nine aliases, and the error carries that form. |
| Mermaid.ListModules | template2slide/scripts/generate_mermaid.py:170-196 | Compact mode with modules gives only the inline list: no subgraph, no connections, no styles. The listing mode gives a subgraph and one style line per module. No modules give nothing. |
| Mermaid.AlertList | template2slide/scripts/generate_mermaid.py:202-203 | The alert channels are joined with " & ". An absent or empty list falls back to the diagram's default channels. |
| Mermaid.OnSiteDiagram | template2slide/scripts/generate_mermaid.py:56-74 | The on-prem and hybrid diagrams have an NVR node exactly when `_should_show_nvr` holds. |
| Mermaid.CloudDiagram | template2slide/scripts/generate_mermaid.py:139-214 | The cloud diagram has the NVR node and its style exactly when `include_nvr` is explicitly true. |
| Mermaid.RemoteDiagram | template2slide/scripts/generate_mermaid.py:444-551 | The 4G and ViMoV diagrams have no NVR, no module subgraph and no module styles. |
| Mermaid.Generate | template2slide/scripts/generate_mermaid.py:553-572 | A diagram is produced exactly when dispatch succeeds, and its layout is the dispatched one. Compact mode suppresses the module subgraph, connections and styles. NVR presence follows `_should_show_nvr` on-site and `include_nvr` in the cloud. |
| Mermaid.CloudNvrIndependentOfShouldShow | template2slide/scripts/generate_mermaid.py:139-167 | A cloud project with `include_nvr` unset has no NVR node, even though `_should_show_nvr` would return true. |
| ReferenceSlides.NormaliseMethod | template2slide/scripts/insert_reference_slides.py:56-73 | On the lower-cased method: "cloud" gives cloud. Otherwise "hybrid" gives hybrid-training-on-prem when "training" and an on-prem word also occur, and hybrid when not. Otherwise an on-prem word gives on-premise, then "4g" or "vpn" gives 4g-vpn-bridge, then "vimov" gives vimov. Anything else comes back lower-cased. |
| ReferenceSlides.NormaliseIdempotent | template2slide/scripts/insert_reference_slides.py:56-73 | Normalising a normalised method changes nothing. |
| ReferenceSlides.GetDeploymentMethod | template2slide/scripts/insert_reference_slides.py:44-76 | Any exception while reading gives None, including a method stored as null or a non-string. Otherwise the result is the stored method normalised, or the empty string when none is stored. |
| ReferenceSlides.GetDeploymentMethodStable | template2slide/scripts/insert_reference_slides.py:55-72 | Storing an already normalised method reads back the same value, because normalising is idempotent. |
| ReferenceSlides.EveryMethodHasSlideKey | template2slide/scripts/insert_reference_slides.py:32-73 | Every deployment method the parsers produce normalises to a key of the slide map. |
| ReferenceSlides.HybridTrainingLocalIsHybrid | template2slide/scripts/insert_reference_slides.py:60-65 | "hybrid-training-local" has no on-prem word, so it normalises to "hybrid". |
| ReferenceSlides.InitialDeck | template2slide/scripts/insert_reference_slides.py:336-375 | The deck before reordering is the generated slides in order, then copies of reference slides 2-10 when the reference deck has at least 10, then copies of slides 11-25 when it has at least 25. |
| ReferenceSlides.PlannedMoves | template2slide/scripts/insert_reference_slides.py:341-347 | There is one move per copied slide 2-10. Move k targets position k and points at the copy of reference slide k+1. |
| ReferenceSlides.SortMoves | template2slide/scripts/insert_reference_slides.py:397 | The moves come out sorted by (target, source) and are a permutation of the input. |
| ReferenceSlides.SortSorted | template2slide/scripts/insert_reference_slides.py:388-397 | Sorting an already sorted move list leaves it unchanged. |
| ReferenceSlides.MoveTo | template2slide/scripts/insert_reference_slides.py:412-419 | Removing a slide and re-inserting it at min(target, len) keeps the length and the multiset of slides, and puts the moved slide at that index. |
| ReferenceSlides.TracksStep | template2slide/scripts/insert_reference_slides.py:421-428 | Shifting the position map after a move keeps it exact: each entry is still the current index of the slide that started there. |
| ReferenceSlides.ApplyMove | template2slide/scripts/insert_reference_slides.py:405-428 | One move keeps the deck a permutation of the same length, and keeps the position map exact. A source missing from the map stands for itself. A source past the end is skipped. |
| ReferenceSlides.Reorder | template2slide/scripts/insert_reference_slides.py:399-431 | The move loop returns a permutation of the deck with an exact position map. For distinct slides it equals applying the moves one after another. |
| ReferenceSlides.FinalOrder | template2slide/scripts/insert_reference_slides.py:331-428 | The final order is: the first generated slide, reference slides 2-10, the other generated slides, then reference slides 11-25 when present. |
| ReferenceSlides.InsertReferenceSlides | template2slide/scripts/insert_reference_slides.py:331-431 | The saved deck is a permutation of the initial deck, of the stated length. When slides were copied, it is in the final order above. |
| ModuleExtraction.ClassifyField | template2slide/scripts/map_to_slides.py:1041-1061 | A field name is the purpose field exactly when it mentions a purpose description or is "purpose". The image and video URL fields are recognised by their names. |
| ModuleExtraction.CleanValue | template2slide/scripts/map_to_slides.py:1034-1039 | A cleaned field value has no newline, no "**", and no surrounding whitespace. |
| ModuleExtraction.UrlValue | template2slide/scripts/map_to_slides.py:1050-1059 | A URL value is kept exactly when it contains "http" in any case, or is empty; otherwise it becomes "". |
| ModuleExtraction.ApplyField | template2slide/scripts/map_to_slides.py:1041-1061 | An unrecognised field changes nothing. No field touches the module type, and URL fields stay well-formed. |
| ModuleExtraction.CollectFields | template2slide/scripts/map_to_slides.py:1021-1075 | Every collected field has a non-empty name. |
| ModuleExtraction.CollectFieldsNames | template2slide/scripts/map_to_slides.py:1021-1075 | The collected fields are the markers whose name does not strip to "", one field per marker, named by the stripped name, in body order. |
| ModuleExtraction.ExtractModuleFields | template2slide/scripts/map_to_slides.py:1003-1113 | The module type is the stripped type match, or empty. Both URLs are empty or contain "http". |
| ModuleExtraction.ApplyFieldsSlot | template2slide/scripts/map_to_slides.py:1023-1075 | Storing the fields in order leaves each slot with the cleaned text of the last field of its kind, URL-filtered for the URL slots. A slot no field feeds keeps its value. |
| ModuleExtraction.ExtractModuleFieldsSlot | template2slide/scripts/map_to_slides.py:1003-1075 | Purpose, alert logic, preconditions, detection criteria, data requirements and both URLs each hold the cleaned text of the last field of that kind in the body, and "" when there is none. |
| ModuleExtraction.UnmentionedFieldStaysEmpty | template2slide/scripts/map_to_slides.py:1003-1061 | A module body with no purpose field leaves the purpose at its initial value. |
| ModuleExtraction.FromNumbered | template2slide/scripts/map_to_slides.py:888-922 | A numbered header gives the stripped name, and the header's type when it has one. |
| ModuleExtraction.PlainModules | template2slide/scripts/map_to_slides.py:980-999 | Each plain-list module has a non-empty name and nothing else. |
| ModuleExtraction.ExtractModulesAsWritten | template2slide/scripts/map_to_slides.py:926-950 | As written: with no numbered headers, "### Module" headers yield exactly one module (the last), and their absence raises. |
| ModuleExtraction.ExtractModules | template2slide/scripts/map_to_slides.py:866-1001 | Numbered headers give one module each. Otherwise each "###" header gives one, and otherwise each bold header does. Every module's URLs are well-formed. |
| ModuleExtraction.AsWrittenLosesModules | template2slide/scripts/map_to_slides.py:926-978 | Two "###" headers give one module as written and two when corrected. A bold header alone raises as written and gives one module when corrected. |
| ModuleExtraction.AsWrittenAgreesOnOneHeader | template2slide/scripts/map_to_slides.py:884-950 | With numbered headers, or exactly one "###" header, the code as written and the corrected version agree. |
| SlideMapping.Append | template2slide/scripts/map_to_slides.py:253-259 | Appending keeps the slides before it, puts the new body last, and preserves "slide i has number i+1, counter one past the last". |
| SlideMapping.SourceReferenceInertAfterBold | template2slide/scripts/map_to_slides.py:789-790 | After bold markers are removed, the source-reference cut never changes the text. |
| SlideMapping.BulletOf | template2slide/scripts/map_to_slides.py:771-796 | Every bullet has level 0 and non-empty text, and comes from a non-blank line that is not a table row. |
| SlideMapping.NestedPatternsNeverMatch | template2slide/scripts/map_to_slides.py:772-786 | Because the line is stripped first, the 2- and 4-space nested patterns never match. |
| SlideMapping.FormatBullets | template2slide/scripts/map_to_slides.py:766-798 | There is at most one bullet per line, each of level 0 with non-empty text. |
| SlideMapping.PlainLineKept | template2slide/scripts/map_to_slides.py:772-796 | A plain line without markers or stars becomes one bullet holding the stripped line. |
| SlideMapping.ModuleListItemsWellFormed | template2slide/scripts/map_to_slides.py:274-285 | Every module name listed in an "AI Modules" value is non-empty and ends without white space. |
| SlideMapping.ModuleBullets | template2slide/scripts/map_to_slides.py:287-293 | There is one level-0 bullet per module. The first reads "<key>: <module>" and the rest are the bare names. |
| SlideMapping.FieldBullets | template2slide/scripts/map_to_slides.py:271-295 | An ordinary key gives the single bullet "key: value". An "AI Modules" key gives one bullet per listed module: the first reads "key: module", the rest are the bare names. All are level 0. |
| SlideMapping.LookupLast | template2slide/scripts/map_to_slides.py:749-764 | A sub-section name reads the content of its last occurrence, as the dict keeps the value assigned last. |
| SlideMapping.LookupMissing | template2slide/scripts/map_to_slides.py:749-764 | A name with no sub-section reads as "". |
| SlideMapping.ProjectRequirementContent | template2slide/scripts/map_to_slides.py:261-303 | Every requirement bullet is level 0. |
| SlideMapping.ProjectRequirementOnePerField | template2slide/scripts/map_to_slides.py:294-295 | Without module keys there is exactly one "key: value" bullet per field, in order. |
| SlideMapping.SectionItems | template2slide/scripts/map_to_slides.py:418-426 | An empty section gives no items. A non-empty one is headed by its section name. |
| SlideMapping.AiSlides | template2slide/scripts/map_to_slides.py:403-462 | Training, Inference and Dashboard items share one slide when they total 15 or fewer. With more than 15, Training and Inference always form one slide and Dashboard another, each left out only when empty. The concatenated content is always the three lists in order, and no slide is empty. |
| SlideMapping.OtherRequirementSlides | template2slide/scripts/map_to_slides.py:464-477 | There is at most one bullet slide per remaining sub-section. |
| SlideMapping.OtherRequirementKept | template2slide/scripts/map_to_slides.py:464-477 | Every non-blank sub-section outside the eight grouped names gets its slide, titled "System Requirements: <name>" with its formatted bullets. |
| SlideMapping.OtherRequirementSource | template2slide/scripts/map_to_slides.py:464-477 | Every such slide comes from a non-blank sub-section outside the grouped names. |
| SlideMapping.OtherRequirementSlidesAppend | template2slide/scripts/map_to_slides.py:464-477 | Sub-sections are handled one at a time, so the slides follow the dict order. |
| SlideMapping.SystemRequirementSlides | template2slide/scripts/map_to_slides.py:360-477 | The system-requirement slides are all bullet slides. |
| SlideMapping.NetworkCameraItems | template2slide/scripts/map_to_slides.py:379-392 | The combined slide has items exactly when Network or Camera has content. It starts with the Network heading when Network has content, and otherwise with Camera. |
| SlideMapping.RequirementDeck | template2slide/scripts/map_to_slides.py:379-477 | The slides come in append order: the Network and Camera slide when it has items, then one "System Requirements" slide per AI group, then the remaining sub-sections' slides. |
| SlideMapping.SystemRequirementLayout | template2slide/scripts/map_to_slides.py:360-477 | For any sub-sections, the slides are laid out as in the row above, from the Network/Camera items, the AI grouping and the remaining sub-sections. |
| SlideMapping.UserInterfaceSlides | template2slide/scripts/map_to_slides.py:580-597 | There is at most one bullet slide per interface sub-section. |
| SlideMapping.UserInterfaceKept | template2slide/scripts/map_to_slides.py:580-597 | Every non-blank interface sub-section gets a slide titled by its name, holding its formatted bullets. |
| SlideMapping.UserInterfaceSource | template2slide/scripts/map_to_slides.py:580-597 | Every interface slide comes from a non-blank sub-section. |
| SlideMapping.UserInterfaceSlidesAppend | template2slide/scripts/map_to_slides.py:580-597 | Sub-sections are handled one at a time, so the slides follow the dict order. |
| SlideMapping.Assign | template2slide/scripts/map_to_slides.py:762 | Assigning to a dict keeps its keys distinct. The assigned key reads as the new value and every other key reads as before. A new key goes last and an existing one keeps its place. |
| SlideMapping.Subsections | template2slide/scripts/map_to_slides.py:750-764 | The dict built from the `###` headers has no repeated name, and every name reads as its last header's text. |
| SlideMapping.SubsectionsDistinct | template2slide/scripts/map_to_slides.py:750-764 | When no header name repeats, the dict holds exactly the headers, in order. |
| SlideMapping.RepeatedSubsection | template2slide/scripts/map_to_slides.py:750-764 | A repeated name appears once, in its first place, with its last text. |
| SlideMapping.CategoryOf | template2slide/scripts/map_to_slides.py:1151-1160 | PPE keywords win, then safety, then operations, and otherwise the module goes to "other". |
| SlideMapping.InCategory | template2slide/scripts/map_to_slides.py:1151-1160 | A group holds only modules of its category, taken from the input. |
| SlideMapping.GroupModules | template2slide/scripts/map_to_slides.py:1142-1163 | The groups follow the order PPE, Safety, Operations, Other. Empty groups are dropped, and each non-empty category appears with its modules in input order. |
| SlideMapping.NonEmptyKeeps | template2slide/scripts/map_to_slides.py:1162-1163 | Dropping empty groups keeps every non-empty one. |
| SlideMapping.GroupingIsPermutation | template2slide/scripts/map_to_slides.py:1142-1163 | Every module lands in exactly one group, so the groups together are a permutation of the input. |
| SlideMapping.MissingFields | template2slide/scripts/map_to_slides.py:534-545 | The list is empty exactly when purpose, alert logic and preconditions all hold non-white-space text. It has at most three entries. |
| SlideMapping.MissingFieldsStripped | template2slide/scripts/map_to_slides.py:534-545 | Each of "Purpose Description", "Alert Trigger Logic" and "Preconditions" is listed exactly when its field strips to "". |
| SlideMapping.ModuleSlides | template2slide/scripts/map_to_slides.py:509-578 | Module slides are produced exactly when no module is rejected. They are then, in order, the slides of the modules that are not "Type:" lines. Any failure is a missing-name or missing-field error. |
| SlideMapping.ModuleSlidesContent | template2slide/scripts/map_to_slides.py:527-578 | Every module that is not a type line gets a slide titled by its name. Every produced slide comes from such a module and has its required fields filled. |
| SlideMapping.ModuleSlidesError | template2slide/scripts/map_to_slides.py:519-551 | A failure reports the first rejected module. A missing name carries the slide number reached, which is the start number plus the slides made before it. Otherwise the error carries the module name and its missing fields. |
| SlideMapping.ArchitectureSlides | template2slide/scripts/map_to_slides.py:328-358 | There is always a diagram slide, followed by a description slide exactly when a detailed description exists. |
| SlideMapping.LeadingSlides | template2slide/scripts/map_to_slides.py:198-219 | At least five slides come before the modules, and the cover names the client. |
| SlideMapping.ModuleOrder | template2slide/scripts/map_to_slides.py:514-521 | Visiting modules group by group is a permutation, so it rejects a module exactly when the input order would. |
| SlideMapping.Map | template2slide/scripts/map_to_slides.py:198-235 | As written: a missing client name fails first. A module section with neither numbered nor "###" headers then fails with the unbound-match error. Otherwise mapping succeeds exactly when no extracted module is rejected. On success, slide i carries number i+1, `total_slides` is the slide count and the cover comes first. |
| SlideMapping.MapWith | template2slide/scripts/map_to_slides.py:198-235 | Over given modules: a missing client name fails. Mapping succeeds exactly when the client is known and no module is rejected, and the structure is then consistently numbered. It never reports the unbound-match error. |
| SlideMapping.MapCorrected | template2slide/scripts/map_to_slides.py:198-235 | With the corrected extraction: a missing client name fails, success holds exactly when no extracted module is rejected, and the unbound-match error never occurs. |
| SlideMapping.MapAgreesWhenExtractionDoes | template2slide/scripts/map_to_slides.py:514 | With numbered headers, or exactly one "###" header, the map as written and the corrected one give the same result. |
| SlideMapping.Assemble | template2slide/scripts/map_to_slides.py:195-235 | Appending the slides one by one yields a consistently numbered structure: the leading slides first, each in its place, then the later slides in order. |
| SlideValidation.CriticalIffErrors | template2slide/scripts/subagent2_validate.py:36-38 | When every error is critical, `has_critical_errors` holds exactly when there are errors. |
| SlideValidation.SectionIssues | template2slide/scripts/subagent2_validate.py:91-100 | There is one critical error for each required section missing from the template, and no others. |
| SlideValidation.RoleIssues | template2slide/scripts/subagent2_validate.py:113-173 | There is one critical error for each required slide role no slide plays. |
| SlideValidation.ContentIssues | template2slide/scripts/subagent2_validate.py:76-173 | An empty slide list gives the "no slides" error and skips the role checks. The check is clean exactly when the template is complete and every role is present. |
| SlideValidation.TemplateModules | template2slide/scripts/subagent2_validate.py:345-359 | A missing or empty module section gives no names. Otherwise numbered headers give one name each and `### Module` headers give only the last name. A section with neither raises. |
| SlideValidation.TemplateModulesCorrected | template2slide/scripts/subagent2_validate.py:345-359 | With the mapper's extraction corrected, `### Module` headers and bold headers each give one name per header, in order. |
| SlideValidation.TwoHeadersCheckLastOnly | template2slide/scripts/subagent2_validate.py:357 | As written, a template with two `### Module` headers is checked only for the second module. The corrected reading checks both. |
| SlideValidation.ValidateSection | template2slide/scripts/subagent2_validate.py:60-74 | Validation raises exactly when the module section has neither numbered nor `### Module` headers. Otherwise it passes exactly when every check holds on the names read from the section. |
| SlideValidation.MissingModuleIssues | template2slide/scripts/subagent2_validate.py:183-195 | Each template module absent from the slides is reported once. The report is empty exactly when every template module has a slide. |
| SlideValidation.EmptyFieldIssues | template2slide/scripts/subagent2_validate.py:201-220 | There is one critical error per blank required field of a module slide. It is empty exactly when all three fields are filled. |
| SlideValidation.FieldSelection | template2slide/scripts/subagent2_validate.py:202-220 | The selected field errors are all critical, and each field is reported exactly when its flag is set. |
| SlideValidation.ModuleSlideFindings | template2slide/scripts/subagent2_validate.py:197-230 | Empty required fields are critical. An empty module type is only a warning, one per slide. There are no errors exactly when every module slide is filled. |
| SlideValidation.ModulesFilledEverywhere | template2slide/scripts/subagent2_validate.py:198-220 | All module slides are filled exactly when each module slide has all three fields non-blank. |
| SlideValidation.BlankIsStripEmpty | template2slide/scripts/subagent2_validate.py:209-210 | A field counts as blank exactly when stripping it leaves "". |
| SlideValidation.AbsentFieldIssues | template2slide/scripts/subagent2_validate.py:262-274 | A required field is reported exactly when its lower-cased name is absent from the requirement slide text. |
| SlideValidation.FieldIssues | template2slide/scripts/subagent2_validate.py:237-274 | The field-extraction check raises only critical errors, and is clean exactly when every required field is found. |
| SlideValidation.OwnerFoundMeansProjectFound | template2slide/scripts/subagent2_validate.py:263-268 | If "Project" is missing, so is "Project Owner": finding the owner implies finding "project". |
| SlideValidation.ArchitectureFindings | template2slide/scripts/subagent2_validate.py:276-307 | An empty diagram is the only error. A non-empty diagram not starting with "graph" or "flowchart" gives a single warning. |
| SlideValidation.Sort | template2slide/scripts/subagent2_validate.py:317 | The sorted slide numbers are ordered and a permutation of the input. |
| SlideValidation.NumberingCharacterised | template2slide/scripts/subagent2_validate.py:313-326 | The sorted numbers equal [1..n] exactly when the numbers are distinct and all lie in 1..n. |
| SlideValidation.Duplicates | template2slide/scripts/subagent2_validate.py:328-343 | There are never more duplicate reports than numbers. |
| SlideValidation.DuplicatesCount | template2slide/scripts/subagent2_validate.py:328-343 | There is one duplicate report per repeated occurrence after the first: reports plus distinct values equal the slide count. |
| SlideValidation.DuplicatesEmptyIffDistinct | template2slide/scripts/subagent2_validate.py:328-343 | There are no duplicate reports exactly when the numbers are distinct. |
| SlideValidation.FormatIssues | template2slide/scripts/subagent2_validate.py:309-343 | The numbering error appears exactly when the numbering is not continuous. The whole format check is clean exactly when it is continuous. |
| SlideValidation.DuplicateReportCount | template2slide/scripts/subagent2_validate.py:328-343 | The format check reports one numbering error when the numbering is broken, plus one error per repeated number. |
| SlideValidation.Errors | template2slide/scripts/subagent2_validate.py:60-74 | Every error the validator collects is critical. There are none exactly when the template and slides pass all checks. |
| SlideValidation.Validate | template2slide/scripts/subagent2_validate.py:60-74 | `passed` is `not has_critical_errors`, which holds exactly when there are no errors and exactly when every check passes. There is one warning per blank module type, plus any diagram warning. |
| SlideValidation.MappedStructureWellFormatted | template2slide/scripts/map_to_slides.py:253-259 | A structure built by the mapper always passes the numbering and duplicate checks, and has a cover slide. |
| ValidationLoop.ValidationOf | template2slide/scripts/generate_with_validation.py:75-89 | A validation that returns a result completes with that result. A raised extraction error becomes a raised validation. |
| ValidationLoop.BoldOnlyTemplateFails | template2slide/scripts/generate_with_validation.py:75-89 | A template whose modules have only bold headers fails validation, whatever the slides, with exactly one critical error and no warnings. |
| ValidationLoop.Subagent2Validate | template2slide/scripts/generate_with_validation.py:64-89 | A validation result passes through unchanged. An exception becomes a failed result with exactly one critical error of the validation category and no warnings. |
| ValidationLoop.LoopCharacterised | template2slide/scripts/generate_with_validation.py:131-229 | From any reachable point, the loop keeps its promises: at most the budget of iterations, one record per iteration, early stops only on a generation failure or a pass, and success exactly at a pass. |
| ValidationLoop.GenerateCharacterised | template2slide/scripts/generate_with_validation.py:131-229 | Every run keeps these promises. A failed last iteration returns its error list. A generation failure, or a budget of zero, ends in "Unexpected loop termination". |
| ValidationLoop.SuccessAtFirstPass | template2slide/scripts/generate_with_validation.py:171-187 | The run succeeds with `iterations` equal to k exactly when iteration k is the first to pass within the budget. |
| ValidationLoop.GenerateSlidesWithValidation | template2slide/scripts/generate_with_validation.py:92-229 | The `while` loop computes the characterised outcome. With a budget of zero or less it returns failure, 0 iterations and "Unexpected loop termination". `auto_fix` changes nothing. |
| ArchitectureDriver.Suffix | template2slide/scripts/generate_from_deal_transfer.py:36 | The extension is non-empty exactly when the name's last dot is neither its first nor its last character. It is then the tail of the name from that dot, which contains no other dot. |
| ArchitectureDriver.SuffixOfExtension | template2slide/scripts/generate_from_deal_transfer.py:36 | A non-empty base, a dot and a dot-free extension give that extension as suffix and the base as stem. |
| ArchitectureDriver.Stem | template2slide/scripts/generate_from_deal_transfer.py:109 | The stem followed by the suffix is the file name. |
| ArchitectureDriver.Preview | template2slide/scripts/generate_from_deal_transfer.py:46-58 | The preview is the first 500 characters, or the whole text when it is shorter. |
| ArchitectureDriver.Classify | template2slide/scripts/generate_from_deal_transfer.py:36-58 | "deal", "transfer", .xlsx or .xls in the name marks a deal transfer. An unreadable file is classified by its name alone. |
| ArchitectureDriver.ClassifyByContent | template2slide/scripts/generate_from_deal_transfer.py:46-58 | A file whose name says nothing is a deal transfer exactly when it is readable and one of the four phrases lies wholly within its first 500 characters. |
| ArchitectureDriver.PreviewPhraseNearStart | template2slide/scripts/generate_from_deal_transfer.py:46-58 | A phrase occurs in the 500-character preview exactly when it lies wholly within the first 500 characters of the text. |
| ArchitectureDriver.MissingFields | template2slide/scripts/generate_from_deal_transfer.py:70-81 | Each missing field is listed exactly once, in the order cameras, modules, deployment, client. The list is empty exactly when nothing is missing. |
| ArchitectureDriver.ZeroCamerasMissing | template2slide/scripts/generate_from_deal_transfer.py:70-73 | A camera count of 0 is falsy, so it is reported missing, first. |
| ArchitectureDriver.DeploymentLabel | template2slide/scripts/generate_from_deal_transfer.py:124 | The label has the method's length, with every '-' replaced by a space and every other character upper-cased. |
| ArchitectureDriver.DeploymentLabelIgnoresCase | template2slide/scripts/generate_from_deal_transfer.py:124 | The label does not depend on the case of the method. |
| ArchitectureDriver.GenerateArchitectureFromFile | template2slide/scripts/generate_from_deal_transfer.py:19-156 | A missing file gives None, and a parser error propagates. The run reaches the generator exactly when the parse succeeds with no required field missing. The generator raises, after the project-info file is written, exactly when the lower-cased method is none of the nine aliases. Otherwise the output holds the parsed information unchanged, the diagram of the dispatched layout, the files `<stem>_project_info.json` and `<stem>_architecture_diagram.md`, and the method's label. |
| ArchitectureDriver.Returned | template2slide/scripts/generate_from_deal_transfer.py:83-93 | When no exception escapes, the function returns a value exactly when it produced output, and None otherwise. |
| OutputValidation.IdFormMatches | dealtransfer2template/scripts/validate_output.py:39 | The captured placeholder ID has the form `[A-Z_]+\d+` exactly when some split of it into letters and digits matches. |
| OutputValidation.IdPrefixMatchesExactly | dealtransfer2template/scripts/validate_output.py:51-52 | `re.match` of `[A-Z_]+\d+` succeeds exactly when some prefix of the ID has that form. |
| OutputValidation.CapturedIdAccepted | dealtransfer2template/scripts/validate_output.py:39-52 | Every captured ID passes the format check, so "Invalid placeholder ID format" is never reported. |
| OutputValidation.ReasoningErrors | dealtransfer2template/scripts/validate_output.py:23-34 | At most one reasoning error is reported, naming the first matching pattern. It appears exactly when some pattern matches. |
| OutputValidation.PlaceholderErrors | dealtransfer2template/scripts/validate_output.py:39-52 | Only empty-value errors are reported: one for each placeholder whose value part is all whitespace. |
| OutputValidation.PlaceholderErrorCount | dealtransfer2template/scripts/validate_output.py:39-52 | There are as many placeholder errors as blank value parts. |
| OutputValidation.RuleLineAnySplit | dealtransfer2template/scripts/validate_output.py:60-76 | A line is a horizontal rule exactly when it is three or more dashes followed only by whitespace. |
| OutputValidation.EmptyHeadings | dealtransfer2template/scripts/validate_output.py:60-76 | The empty headings are exactly the "##" headings whose body is only whitespace and rule lines. |
| OutputValidation.SectionWarnings | dealtransfer2template/scripts/validate_output.py:60-76 | There is at most one warning. It appears exactly when some section is empty, counts all empty sections and names the first min(3, count). |
| OutputValidation.TemplateErrors | dealtransfer2template/scripts/validate_output.py:13-52 | A source reference, a reasoning match and blank placeholder values are each reported. There is at most one reasoning error, and never an ID-format error. There are no errors exactly when none of the three occurs. |
| OutputValidation.TemplateWarnings | dealtransfer2template/scripts/validate_output.py:42-76 | "No placeholders" is a warning, never an error, given exactly when none match. The empty-section warning appears exactly when a section is empty. |
| OutputValidation.ValidateReasoning | dealtransfer2template/scripts/validate_output.py:80-93 | The reasoning file never produces errors. There is one warning per missing marker. |
| OutputValidation.ValidateChecklist | dealtransfer2template/scripts/validate_output.py:95-109 | The checklist errors exactly when "\| ID \|" or "\| Section \|" is absent. A missing bracketed ID gives only a warning. |
| OutputValidation.Main | dealtransfer2template/scripts/validate_output.py:111-175 | The exit code is 1 exactly when the template or checklist produced an error. A missing template file counts as nothing. |

## Left out

- I/O: reading and writing files, JSON and markdown, printing, `sys.exit` and argv handling. The inputs are values, and each outcome is a datatype. This covers template2slide.py, generate_architecture.py, test_all_deployments.py and every `main`/`__main__` block except the exit decision of validate_output.py.
- python-pptx slide copying, background copying and XML relationship rewiring in insert_reference_slides.py. These are calls into a foreign library. The reorder is modelled on an abstract sequence of slide identities.
- resize_slide.py (floating-point shape geometry) and extract_deal_transfer.py (an Excel reader).
- Regular-expression semantics. Every match is a pre-extracted boolean or captured string: section extraction, field markers, keywords, key/value pairs, milestones, module headers. This also covers the extractors of project name, client name, camera count and network information, which are pure regex reads.
- The optional `markdown` library branch of map_to_slides.py. It does not affect the result.
- Python set iteration order. Where the code iterates a set, the model keeps list order: the template modules missing from the slides, the required sections missing from the template (reported in the fixed section order, where the source iterates a set difference), and the deal-transfer fallback phrases.
- Unicode case mapping. Lower- and upper-casing are ASCII only.
- Unicode digits. Digit tests accept only `0`-`9`. Python's `\d` also accepts other Unicode decimal digits, such as Arabic-Indic digits, so a number written in those matches in the source but not in the model.
- Unicode white space. `strip` and the blank-value tests treat only space, tab, newline, carriage return, vertical tab and form feed as white space. Python's `str.strip` and `\s` also accept other Unicode spaces, such as U+00A0, so a value made only of those counts as blank in the source but not in the model.
- The output directory. The driver's file names are stem-based only, and `Path.suffix` follows the rule that a leading or trailing dot is not a suffix.
- Mermaid text. The diagram templates are fixed strings. The model records only the parts that vary: layout, NVR node and style, module subgraph, connections, styles, inline list, alert text.
- The retry loop's pptx and architecture-diagram paths. These are reduced to the structure file. Each iteration's generation and validation outcome is a parameter, because those steps run the whole pipeline on files.
- The parsers inside `generate_architecture_from_file`. They are a parameter from the detected kind to its outcome.
- The deal transfer's NVR, project name, client name and camera count. Each is a direct regex read with no logic to model.
- ReferenceSlides.FinalOrder: stated only for a deck with at least one generated slide. With none, the final order is not characterised, though the length and permutation facts of `InsertReferenceSlides` still hold.
- Mermaid.ShortName: the length bound is stated for `max_length` of 3 or more. For smaller limits, Python's negative-slice truncation gives longer names. The model computes that case but does not bound it.
- DealTransfer.ExtractAiModules: the fallback keeps the first occurrence of each phrase, in document order. The source's `list(set(...))` fixes no order, so only the set of names and the limit of 20 carry over.
- SlideValidation.SectionIssues: missing sections are reported in the fixed order of the required list. The source iterates a set difference, so only the set of reported sections carries over.
- SlideValidation.MissingModuleIssues: modules are reported in template order. The source iterates a set difference, so only the set of reported modules carries over.

## Findings

| source | as written | input that shows it | evidently intended | confidence | as-written member | corrected member |
|---|---|---|---|---|---|---|
| template2slide/scripts/map_to_slides.py:926-954, template2slide/scripts/subagent2_validate.py:357 | In the "### Module" branch, only the name assignment is inside the `for` loop. The record is built once, after the loop, from the last header. With no "###" header the loop never binds `match`, so the fallbacks raise a NameError. | A module section with two "### Module" headers gives one module. A section whose modules are only bold headers raises instead of using the bold fallback. The validator reuses this extraction for the template's modules, so it checks only the last `###` module and fails a bold-only template with one critical error. | The record-building body belongs inside the loop, giving one module per header, and the bold and plain fallbacks are reachable. | not executed | ModuleExtraction.ExtractModulesAsWritten, ModuleExtraction.AsWrittenLosesModules, SlideMapping.Map, SlideValidation.TemplateModules, SlideValidation.TwoHeadersCheckLastOnly, ValidationLoop.BoldOnlyTemplateFails | ModuleExtraction.ExtractModules, SlideMapping.MapCorrected, SlideValidation.TemplateModulesCorrected |

# Jenkins pipeline provider: verified model

This project models the core of a Terraform provider for Jenkins Pipeline jobs:

- the configuration document the provider sends to Jenkins;
- the two extractors that take the description and the Groovy script back out of such a document;
- the five handlers of the `jenkins_pipeline` resource (Create, Read, Update, Delete, ImportState);
- the Read handler of the `jenkins_pipeline` data source.

The model and its proofs are written in Dafny.

## Files

- `wrappers.dfy`: `Option` and `Result`.
- `strings.dfy`: substring search, the model of Go's `strings.Index` and `strings.Contains`.
  - `IndexOf` is executable and is proved to find the first occurrence.
  - The lemmas locate the first occurrence in a concatenation one piece at a time.
- `config_xml.dfy`: `buildPipelineConfigXML` and the two extractors, with their round-trip properties.
  - The template is written out as literal pieces, split so that the search for each marker can be followed.
- `framework.dfy`: the parts of the Terraform plugin framework that the handlers touch.
  - Attribute values may be null, unknown or known; `ValueString` gives "" for null and unknown.
  - A diagnostic is a summary and a detail.
  - A handler leaves the state untouched, sets it, or removes it.
- `diagnostics.dfy`: one `Problem` constructor per distinct summary and detail pair that `AddError` is called with. The data source's config-read and extraction errors reuse the resource's constructors, because their texts are the same. Its `Summary()` and `Detail()` give the exact texts the Go code formats.
- `jenkins_client.dfy`: the Jenkins server behind the `gojenkins` client.
  - The server is a map from job name to job, plus a fixed set of operations that fail with a given error text.
  - A missing job is the error "404".
  - The `Client` class performs the calls and records each one in `calls`.
- `pipeline_resource.dfy`: the resource model and the class `Resource`, whose methods do what the Go handlers do, step by step.
  - Each method is proved equal to a specification function of the server before the call: `CreateSpec`, `ReadSpec`, `UpdateSpec`, `DeleteSpec`.
  - Each specification function gives the response (state and ordered diagnostics), the server afterwards, and the calls made.
  - The lifecycle lemmas are about these functions.
- `pipeline_datasource.dfy`: the same for the data source's Read.

The server models what Jenkins records for a document it accepts: the job's description is the extracted description element, or "" when there is none.

The template has no escaping, so the round trips need side conditions:
- the description does not contain `</description>`;
- the script does not contain `]]></script>`;
- the description does not contain `<script><![CDATA[`.

The first two conditions are exact: `DescriptionRoundTrip` and `ScriptRoundTrip` state each one as an if-and-only-if. The third is only sufficient, and `ScriptRoundTrip` takes it as a precondition. Some descriptions that break it still let the script come back, for example one that holds a complete script section with the same text as the real script. `ScriptConditionNotNeeded` proves this. `DescriptionScriptSectionWins` shows that such a description decides what the script extractor returns, and `DescriptionCanCaptureScript` gives a concrete case where the script is lost.

## Model

| member | source | states |
|---|---|---|
| Strings.IndexOfIsFirstOccurrence | resource_jenkins_pipeline.go:128-137 | The index `strings.Index` returns is the first occurrence of the marker, and there is none exactly when the marker does not occur. |
| Strings.ContainsText | datasource_jenkins_pipeline.go:124 | `strings.Contains` is true exactly when the pattern occurs somewhere in the text. |
| ConfigXml.ExtractBetween | resource_jenkins_pipeline.go:128-140 | The shared extraction: "start missing" exactly when the start marker does not occur; "end missing" exactly when the end marker does not follow the first start marker; otherwise the text between the first start marker and the first end marker after it. |
| ConfigXml.ExtractGroovyScriptFromXML | resource_jenkins_pipeline.go:122-141 | The start-tag error exactly when `<script><![CDATA[` is absent; the end-tag error exactly when `]]></script>` does not follow it; no other error; on success, the text between the first start marker and the first end marker after it. |
| ConfigXml.ExtractDescriptionFromXML | resource_jenkins_pipeline.go:144-161 | The same for `<description>` and `</description>`, with the description's two error messages. |
| ConfigXml.EnclosedLacksEnd | resource_jenkins_pipeline.go:134-140 | An extracted text never contains its end marker. |
| ConfigXml.DescriptionRoundTrip | resource_jenkins_pipeline.go:101-119 | Extracting the description from a built document gives back the description exactly when the description does not contain `</description>`, whatever the script. |
| ConfigXml.ScriptRoundTrip | resource_jenkins_pipeline.go:101-141 | If the description does not contain `<script><![CDATA[`, extracting the script from a built document gives back the script exactly when the script does not contain `]]></script>`. |
| ConfigXml.BuildThenExtract | resource_jenkins_pipeline.go:101-161 | Under the three side conditions, both extractors return exactly the arguments the document was built from. |
| ConfigXml.BuildInjective | resource_jenkins_pipeline.go:101-119 | Under the side conditions, different (description, script) pairs give different documents. |
| ConfigXml.DescriptionCanCaptureScript | resource_jenkins_pipeline.go:106-112 | A description holding a complete script section makes the script extractor return the description's "x" instead of the real script "y". |
| ConfigXml.DescriptionScriptSectionWins | resource_jenkins_pipeline.go:101-141 | A description made of a whole script section, whose text lacks `]]></script>`, makes the script extractor return that text, whatever the real script is. |
| ConfigXml.ScriptConditionNotNeeded | resource_jenkins_pipeline.go:101-141 | A description holding a script section with the real script's own text contains `<script><![CDATA[`, yet the script still comes back. The description's script condition is therefore sufficient for the round trip but not necessary. |
| ConfigXml.ExtractedScriptRebuilds | resource_jenkins_pipeline.go:122-141 | A script extracted from any document comes back unchanged when it is built into a new document, with a description free of `<script><![CDATA[`, and extracted again. |
| ConfigXml.ExtractedDescriptionRebuilds | resource_jenkins_pipeline.go:144-161 | An extracted description comes back unchanged when it is built into a new document with any script and extracted again. |
| ConfigXml.SandboxFollowsScript | resource_jenkins_pipeline.go:112-113 | In the built document, `]]></script>`, a line break and `<sandbox>true</sandbox>` come right after the script: the sandbox flag is set for every script. |
| PipelineResource.OrEmpty | resource_jenkins_pipeline.go:272-289 | A failed extraction gives "" and exactly one diagnostic; a successful one gives the text and none. |
| PipelineResource.Resource.Create | resource_jenkins_pipeline.go:164-230 | The response, the server afterwards and the calls appended to the client log are those of `CreateSpec` on the server before the call. |
| PipelineResource.Resource.Read | resource_jenkins_pipeline.go:233-301 | The same, for `ReadSpec`. |
| PipelineResource.Resource.Update | resource_jenkins_pipeline.go:304-351 | The same, for `UpdateSpec`. |
| PipelineResource.Resource.Delete | resource_jenkins_pipeline.go:354-391 | The same, for `DeleteSpec`. |
| PipelineResource.Resource.ImportState | resource_jenkins_pipeline.go:394-397 | The imported identifier becomes `id` verbatim and every other attribute stays null. The method has no `modifies` clause, so it cannot call the client. |
| PipelineResource.CreateStateOnlyOnSuccess | resource_jenkins_pipeline.go:181-227 | Create sets state exactly when there are no diagnostics. Otherwise it adds exactly one error and leaves the state untouched. It sets state exactly when the job did not exist and neither CreateJob nor GetJob failed. |
| PipelineResource.CreateRefusesTakenName | resource_jenkins_pipeline.go:189-195 | If the job exists, Create adds "Job Already Exists", changes nothing on the server, and never calls CreateJob. |
| PipelineResource.CreateAbortsOnFailedCheck | resource_jenkins_pipeline.go:181-188 | If the existence check fails, Create adds the "Client Error" for that error, writes no state, and makes no other call. |
| PipelineResource.CreateTwiceRefused | resource_jenkins_pipeline.go:181-213 | After a successful Create, a second Create of the same plan adds "Job Already Exists". It changes nothing on the server, so there is no duplicate, and it calls only JobExists. |
| PipelineResource.CreateSuccessState | resource_jenkins_pipeline.go:198-227 | A successful Create adds the job built from the plan to the server. The state has `id` = `name` = the job name, the server's description, the planned script as given and the timestamp. The calls are JobExists, CreateJob, GetJob. |
| PipelineResource.ReadOutcomes | resource_jenkins_pipeline.go:242-298 | Read removes the resource exactly when the job is reported absent, and adds no error then. It sets state exactly when the config was read. Otherwise it adds one error and leaves the state alone. |
| PipelineResource.ReadLooksUpPriorId | resource_jenkins_pipeline.go:242-262 | Read does not change the server, every call it makes is for the prior state's `id`, and it never creates, updates or deletes. |
| PipelineResource.ReadRemovesVanishedJob | resource_jenkins_pipeline.go:254-259 | A job missing from the server makes Read remove the resource with no diagnostic. |
| PipelineResource.ReadToleratesExtractionFailure | resource_jenkins_pipeline.go:271-298 | Once the config is read, state is set even if an extraction failed. A failed field becomes "" with its error, script error first. `name` becomes the `id`, and `id` is kept. |
| PipelineResource.UpdateTargetsPriorId | resource_jenkins_pipeline.go:315-333 | Update's outcome does not depend on the plan's `id` or `name`, and every call is for the prior state's `id`. |
| PipelineResource.UpdateStateOnlyOnSuccess | resource_jenkins_pipeline.go:323-348 | Update sets state exactly when there are no diagnostics. It does so exactly when UpdateJob does not fail, the job exists and GetJob does not fail. Otherwise it adds exactly one error and leaves the state untouched. A failed UpdateJob adds "Jenkins Job Update Error" with its error, leaves the server unchanged and makes no other call. A failed GetJob afterwards adds "Jenkins Job Read Error After Update". |
| PipelineResource.UpdateSuccessState | resource_jenkins_pipeline.go:323-348 | A successful Update changes only this job on the server: its config becomes the document built from the plan, and its description becomes the one the server records for that document. Its name, its builds, the other jobs and the faults are kept. The state is the prior state with that description, the plan's script and the timestamp. The calls are UpdateJob, then GetJob. |
| PipelineResource.DeleteOutcomes | resource_jenkins_pipeline.go:366-391 | Delete never writes state. It adds no diagnostic exactly when the existence check succeeds and the job is either absent or deleted. Otherwise it adds exactly one error and leaves the server unchanged. A failed check adds the "Client Error" and makes no other call, and a failed DeleteJob adds "Jenkins Job Deletion Error". |
| PipelineResource.DeleteAbsentJob | resource_jenkins_pipeline.go:366-377 | Delete of a job that is already gone succeeds with no diagnostic, no server change and no DeleteJob call. |
| PipelineResource.DeleteIdempotent | resource_jenkins_pipeline.go:366-391 | After a Delete without errors the job is gone and nothing else changed. A second Delete then succeeds, calling only JobExists. |
| PipelineResource.PlannedConfigRoundTrips | resource_jenkins_pipeline.go:101-161 | Under the side conditions, the server stores the planned description, and both extractors give back the plan's texts. |
| PipelineResource.CreateThenReadAgrees | resource_jenkins_pipeline.go:164-298 | When the plan's texts round-trip and config reads do not fail, a Read right after a successful Create returns, with no diagnostic, exactly the state Create wrote apart from the timestamp. That state holds the planned description. |
| PipelineResource.UpdateThenReadAgrees | resource_jenkins_pipeline.go:233-351 | The same after a successful Update, for a prior state whose `name` is its known `id`. |
| PipelineDataSource.IsNotFound | datasource_jenkins_pipeline.go:124 | A GetJob error counts as "not found" exactly when its text contains "404" or "no such job". |
| PipelineDataSource.DataSource.Read | datasource_jenkins_pipeline.go:99-195 | The response and the calls appended to the client log are those of `ReadSpec` on the server, and the server is unchanged. |
| PipelineDataSource.DataSource.FetchLastBuild | datasource_jenkins_pipeline.go:168-182 | Status and duration are fetched only for a build numbered above 0. Otherwise, or when the fetch fails, they are "" and 0. |
| PipelineDataSource.IdWinsOverName | datasource_jenkins_pipeline.go:108-110 | With a known `id`, Read's outcome does not depend on `name`, and every call is for the `id`. |
| PipelineDataSource.NameUsedWithoutId | datasource_jenkins_pipeline.go:110-112 | Without a known `id`, a known `name` is the job every call is for. |
| PipelineDataSource.LookupCalls | datasource_jenkins_pipeline.go:122-182 | A lookup makes at least one call, and all of its calls are for the selected job. |
| PipelineDataSource.MissingIdentifierCallsNothing | datasource_jenkins_pipeline.go:113-119 | With neither identifier known, Read adds "Missing Identifier", makes no call and sets no state. |
| PipelineDataSource.FailedLookupIsError | datasource_jenkins_pipeline.go:122-137 | A failed GetJob adds "Jenkins Job Not Found" when the error mentions "404" or "no such job", and "Jenkins Job Read Error" otherwise. Either way no state is set and no other call is made. |
| PipelineDataSource.AbsentJobIsNotFound | datasource_jenkins_pipeline.go:122-131 | A job the server does not have is reported as "Jenkins Job Not Found", never as a silent success. |
| PipelineDataSource.ReadSetsServerName | datasource_jenkins_pipeline.go:149-192 | Once the job and its config are read, state is set with `id` = `name` = the server's job name. A failed extraction makes its field "" and adds its error, script error first, and only those errors. |
| PipelineDataSource.StateSetIffJobRead | datasource_jenkins_pipeline.go:108-192 | Read sets state exactly when an identifier was given and both GetJob and the config read succeeded. Otherwise it adds exactly one error. |
| PipelineDataSource.NoBuildNoFetch | datasource_jenkins_pipeline.go:168-182 | Without a build numbered above 0 the last build is not fetched; the status is "" and the duration 0. |
| PipelineDataSource.NumberedBuildFetched | datasource_jenkins_pipeline.go:168-182 | With a numbered build, the build is fetched once after the config. Its status and duration are reported on success, and "" and 0 on failure. A failed fetch adds no diagnostic. |

## Left out

- `main.go`: provider bootstrap, credentials, the HTTP client and plugin serving. It is not part of this model.
- `Metadata`, `Schema` and `Configure` in both files: these are declarative framework glue. `RequiresReplace` on `name` is taken as given; Update never sees a name change.
- The framework's own diagnostics from `Plan.Get`, `State.Get` and `State.Set`: the handlers receive the decoded model, and setting state is taken to add no diagnostic.
- The clock: `time.Now().Format(time.RFC3339)` is the `now` parameter, an arbitrary string.
- Logging: `log.Printf` has no observable effect.
- The `gojenkins` client and Jenkins itself: they are abstracted as the `Server` value.
  - Each operation fails by a fixed per-server fault table; this covers every combination of failures within one handler call, since each handler makes each call at most once.
  - A missing job answers "404".
  - A stored job's description is the document's description element, which is an assumption about Jenkins.
  - `GetJobConfig` gives back the config document exactly as `CreateJob` or `UpdateJob` stored it. A Jenkins that re-serialises config.xml is not modelled. `CreateThenReadAgrees` and `UpdateThenReadAgrees` depend on this and on the stored-description assumption.
- `int64(lastBuild.Raw.Duration)`: the float64-to-int64 cast is not modelled; the duration is an integer supplied by the server.
- Strings are sequences of characters, whereas Go indexes bytes. For the ASCII markers searched for, the first occurrence and the slices are the same; multi-byte UTF-8 is not modelled.
- Diagnostics are kept as `Problem` values. `Problem.ToDiagnostic` renders the exact summary and detail, and the lemmas compare the structured values.
- XML well-formedness and escaping: the code does none, and the model follows it. The consequences are stated by the round-trip lemmas' side conditions and by `DescriptionCanCaptureScript`.

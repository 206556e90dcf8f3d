# codezap backend rules, modelled in Dafny

codezap stores code templates. Each template has:

- an owner and a category;
- a title and an optional description;
- source files;
- global, name-shared tags.

This project models the backend's stateful domain rules over an in-memory database of rows:

- **Template search** (`TemplateSearch`, `template_search.dfy`).
  - The optional owner, category, tag-id and keyword filters each become one clause. The clauses are joined with AND.
  - `ToPredicate` builds the clause list the way `toPredicate` appends to its list.
  - Its contract ties the clauses to `Matches`, a filter-by-filter reference definition of what the search selects.
  - The tag clause is modelled as written: among the template's linked tag ids that are in the list, count the distinct ones and compare with the list's size. It is proved to mean "linked to every requested tag". A list that repeats an id therefore selects nothing.
  - The keyword is trimmed as Java's `String.trim` does (`JavaStrings`, `java_strings.dfy`). It is then matched as a substring.
- **Likes** (`Likes`, `likes_service.dfy`). `like` fails on a missing template, then on a missing member. It leaves an existing (template, member) pair alone and otherwise saves exactly one row.
- **Tags** (`Tags`, `tag_service.dfy`).
  - The service holds the tag table and the template-tag links, in the order they were saved. Tag names are global and never stored twice.
  - `createTags`, `updateTags` and `deleteByIds` are methods of `TagService`.
  - `getByTemplate` and `findAllByTemplates` are functions.
  - The effect of each method on a template's tag names is stated through `AppendMissing`, `Keep` and `Reconcile`. These are list functions whose own properties are proved.
- **Members** (`Members`, `member_service.dfy`).
  - Signup refuses a stored email first and a stored username second. Otherwise it stores the member under the next id.
  - Login and the cookie check pass exactly on a stored (email, password) pair.

`Common` (`common.dfy`) holds the option, result and error types, the error messages, and facts about distinct sequences. `Domain` (`domain.dfy`) holds the row types.

Each test case of the tag and member services is mirrored by a scenario method. Each one applies the modelled service to the test's data and states the test's expected result in its `ensures`.

## Model

| member | source | states |
|---|---|---|
| TemplateSearch.ToPredicate | backend/src/main/java/codezap/template/repository/TemplateSpecification.java:32-88 | The clause list selects a template exactly when `Matches` holds. The list is empty exactly when no filter is active: memberId, categoryId and keyword null or blank, and tagIds null or empty. |
| TemplateSearch.TagClauseMeaning | backend/src/main/java/codezap/template/repository/TemplateSpecification.java:81-86 | The count-distinct clause holds exactly when the id list has no repeat and every listed id is linked to the template. |
| TemplateSearch.RepeatedTagIdSelectsNothing | backend/src/main/java/codezap/template/repository/TemplateSpecification.java:83-86 | If the tag-id list repeats an id, the tag clause selects no template. |
| TemplateSearch.KeywordClauseMeaning | backend/src/main/java/codezap/template/repository/TemplateSpecification.java:54-64 | The keyword clause holds exactly when the word occurs in the title, the description, or the content or filename of one of the template's source files. |
| TemplateSearch.Select | backend/src/main/java/codezap/template/repository/TemplateSpecification.java:40 | The result keeps exactly the templates that match, and is never longer than the table. |
| TemplateSearch.UnfilteredSelectsAll | backend/src/main/java/codezap/template/repository/TemplateSpecification.java:32-40 | With no active filter, every template is selected, in table order. |
| TemplateSearch.NarrowingRefines | backend/src/main/java/codezap/template/repository/TemplateSpecification.java:35-40 | Adding filters gives the wider result filtered again, so it never enlarges the result. |
| TemplateSearch.SearchIsIntersection | backend/src/main/java/codezap/template/repository/TemplateSpecification.java:35-40 | The result is the intersection of what each filter selects on its own. |
| TemplateSearch.Accepts | backend/src/main/java/codezap/template/repository/TemplateSpecification.java:32-41 | Evaluating the built query on a template gives `Matches`. |
| TemplateSearch.KeywordScenario | backend/src/main/java/codezap/template/repository/TemplateSpecification.java:52-64 | "Hello" is found in the title, "print" in a source file's content, and "main" in its filename. |
| TemplateSearch.PhraseScenario | backend/src/main/java/codezap/template/repository/TemplateSpecification.java:52-53 | A keyword spanning title and description is not found, because it is one substring. A blank keyword adds no clause. |
| TemplateSearch.TagScenario | backend/src/main/java/codezap/template/repository/TemplateSpecification.java:78-88 | Linked ids select the template. An unlinked id does not, and neither does a repeated id. |
| JavaStrings.TrimLeading | backend/src/main/java/codezap/template/repository/TemplateSpecification.java:52-53 | The result is a suffix of the input that does not start with a character <= ' '. Every character dropped is <= ' '. |
| JavaStrings.TrimTrailing | backend/src/main/java/codezap/template/repository/TemplateSpecification.java:52-53 | The result is a prefix of the input that does not end with a character <= ' '. Every character dropped is <= ' '. |
| JavaStrings.TrimMeaning | backend/src/main/java/codezap/template/repository/TemplateSpecification.java:52-53 | Trim is empty exactly when the keyword is blank. Otherwise it is the slice between leading and trailing blanks, and neither of its ends is blank. |
| JavaStrings.ContainsMeaning | backend/src/main/java/codezap/template/repository/TemplateSpecification.java:53-55 | The executable substring test holds exactly when the word occurs at some position (the `%w%` pattern). |
| Likes.AfterLike | backend/src/main/java/codezap/like/service/LikesService.java:25-29 | The pair is present afterwards and every earlier row is kept. Nothing else is added. One row is added exactly when the pair was absent. A table without duplicates keeps having none. |
| Likes.LikeTwiceIsLikeOnce | backend/src/main/java/codezap/like/service/LikesService.java:25-29 | Liking the same pair twice leaves the table as liking it once. |
| Likes.LikesService.Like | backend/src/main/java/codezap/like/service/LikesService.java:22-30 | A missing template fails first and a missing member second, both without change. Otherwise the table becomes `AfterLike` of the old one, and the service stays valid: no duplicate pair, no dangling id. |
| Likes.LikeScenario | backend/src/main/java/codezap/like/service/LikesService.java:22-30 | Two likes of one pair leave one row. With both template and member missing, the error is the template's. |
| Tags.FindByName | backend/src/test/java/codezap/tag/service/TagServiceTest.java:77-93 | Some means the position of a tag with that name. None means no stored tag has it. |
| Tags.LinksOf | backend/src/test/java/codezap/tag/service/TagServiceTest.java:109-120 | A link is in it exactly when it is a stored link of that template. |
| Tags.TagsOfTemplateAt | backend/src/test/java/codezap/tag/service/TagServiceTest.java:109-120 | The k-th tag of a template is the tag named by its k-th link. |
| Tags.TagsOfTemplateMeaning | backend/src/test/java/codezap/tag/service/TagServiceTest.java:109-132 | A template's tags are empty exactly when it has no link, and hold no tag twice. A tag is among them exactly when it is stored and linked. |
| Tags.AppendMissing | backend/src/test/java/codezap/tag/service/TagServiceTest.java:59-93 | The old names stay as a prefix. The result holds exactly the old and the new names, and no name twice. |
| Tags.AppendMissingOntoPrefix | backend/src/test/java/codezap/tag/service/TagServiceTest.java:44-72 | Names already linked as a prefix of a duplicate-free input list end up as exactly that list, in input order. |
| Tags.AppendMissingPresent | backend/src/test/java/codezap/tag/service/TagServiceTest.java:59-72 | Names that are all linked already add nothing. |
| Tags.Keep | backend/src/test/java/codezap/tag/service/TagServiceTest.java:236-270 | Exactly the old names that are still wanted are kept, with no name twice. |
| Tags.KeepAll | backend/src/test/java/codezap/tag/service/TagServiceTest.java:254-270 | Keeping names that are all wanted changes nothing. |
| Tags.KeepNone | backend/src/test/java/codezap/tag/service/TagServiceTest.java:236-249 | Keeping against the empty list leaves nothing. |
| Tags.Reconcile | backend/src/test/java/codezap/tag/service/TagServiceTest.java:215-270 | After an update, a template's names are exactly the wanted names, with no name twice. |
| Tags.ReconcileIdempotent | backend/src/test/java/codezap/tag/service/TagServiceTest.java:215-270 | Updating twice with the same names equals updating once. |
| Tags.ReconcileToNothing | backend/src/test/java/codezap/tag/service/TagServiceTest.java:236-249 | Updating with the empty list leaves no name. |
| Tags.ReconcileOntoPrefix | backend/src/test/java/codezap/tag/service/TagServiceTest.java:254-270 | When the kept names are a prefix of a duplicate-free wanted list, the result is that list in order. |
| Tags.DropStale | backend/src/test/java/codezap/tag/service/TagServiceTest.java:236-270 | Only existing links are kept, and none of them is a link of the template to an unwanted name. |
| Tags.DropStaleKeepsOthers | backend/src/test/java/codezap/tag/service/TagServiceTest.java:236-270 | Dropping stale links keeps the table duplicate-free and leaves other templates' links unchanged. |
| Tags.DropStaleNames | backend/src/test/java/codezap/tag/service/TagServiceTest.java:236-270 | After dropping, the template's names are `Keep` of the old names. |
| Tags.WithoutTemplatesMeaning | backend/src/test/java/codezap/tag/service/TagServiceTest.java:280-310 | The deleted templates have no link left. The others keep theirs in order, and the table stays duplicate-free. |
| Tags.LinkedNameIffLinked | backend/src/test/java/codezap/tag/service/TagServiceTest.java:59-72 | A stored tag's name is among a template's names exactly when the template is linked to it. |
| Tags.LinkedNameIsStored | backend/src/test/java/codezap/tag/service/TagServiceTest.java:44-93 | Every name a template is tagged with belongs to a stored tag. |
| Tags.FindAllByTemplates | backend/src/test/java/codezap/tag/service/TagServiceTest.java:158-195 | Each tag appears once. A tag is listed exactly when some given template is linked to it. |
| Tags.FindAllByTemplatesEmpty | backend/src/test/java/codezap/tag/service/TagServiceTest.java:199-206 | Nothing is found exactly when none of the templates has a link. |
| Tags.AddName | backend/src/test/java/codezap/tag/service/TagServiceTest.java:44-93 | A tag for the name exists afterwards and only that tag may have been added. The name is appended to the template's names unless already there. The tables stay consistent. |
| Tags.FindOrSaveTag | backend/src/test/java/codezap/tag/service/TagServiceTest.java:57-93 | The returned id names a stored tag with the name. Tags with that name are the only rows that may be appended, and no template's names change. |
| Tags.LinkOnce | backend/src/test/java/codezap/tag/service/TagServiceTest.java:57-73 | Only links of this template are appended. The tag's name joins the end of the template's names unless it is already among them. |
| Tags.AddNames | backend/src/test/java/codezap/tag/service/TagServiceTest.java:44-93 | Every name has a tag afterwards. Other templates' links are unchanged. The template's names become `AppendMissing` of the old names and the input. |
| Tags.TagService.GetByTemplate | backend/src/test/java/codezap/tag/service/TagServiceTest.java:109-132 | The template's tags in saved-link order, each once. Empty exactly when it has no link. |
| Tags.TagService.CreateTags | backend/src/test/java/codezap/tag/service/TagServiceTest.java:44-93 | Tags and links are only added. Other templates keep their links. The names become `AppendMissing` of the old names and the input. |
| Tags.TagService.UpdateTags | backend/src/test/java/codezap/tag/service/TagServiceTest.java:215-270 | No tag row is deleted, every row added holds a wanted name, and every wanted name is stored. Other templates keep their links. The names become `Reconcile` of the old names and the wanted ones. |
| Tags.TagService.DeleteByIds | backend/src/test/java/codezap/tag/service/TagServiceTest.java:280-310 | The given templates lose all links and the others keep theirs. Tag rows are untouched. |
| Tags.CreateTagsScenario | backend/src/test/java/codezap/tag/service/TagServiceTest.java:44-54 | An untagged template reads back the input names in order. |
| Tags.CreateTagsWithLinkedTagScenario | backend/src/test/java/codezap/tag/service/TagServiceTest.java:59-72 | An already linked name is not linked twice: three names, in input order. |
| Tags.CreateTagsWithStoredTagScenario | backend/src/test/java/codezap/tag/service/TagServiceTest.java:77-93 | A stored but unlinked tag is reused and keeps its row. |
| Tags.GetByTemplateScenario | backend/src/test/java/codezap/tag/service/TagServiceTest.java:109-132 | The tags come in link order, and a template without links has none. |
| Tags.FindAllByTemplatesScenario | backend/src/test/java/codezap/tag/service/TagServiceTest.java:158-206 | Two templates give their tags once each, a tag they share is listed once, and no links give nothing. |
| Tags.UpdateTagsNewScenario | backend/src/test/java/codezap/tag/service/TagServiceTest.java:215-231 | A new name is stored and linked. |
| Tags.UpdateTagsToNothingScenario | backend/src/test/java/codezap/tag/service/TagServiceTest.java:236-249 | The empty list removes every link of the template. |
| Tags.UpdateTagsKeepScenario | backend/src/test/java/codezap/tag/service/TagServiceTest.java:254-270 | An existing and a new name give exactly those two tags, in order. |
| Tags.ReconcileScenario | backend/src/test/java/codezap/tag/service/TagServiceTest.java:215-270 | ["go", "rust"] updated to ["rust", "zig"] reads back ["rust", "zig"], and the "go" tag remains stored. |
| Tags.DeleteByIdsScenario | backend/src/test/java/codezap/tag/service/TagServiceTest.java:280-310 | Deleting removes the template's links and keeps both tags. Deleting a template without links leaves nothing to find. |
| Common.Message | backend/src/test/java/codezap/member/service/MemberServiceTest.java:47-100 | Each refused signup and each failed authentication carries a non-empty message. The scenarios state the exact text the tests expect. |
| Common.ElementsCardinality | backend/src/main/java/codezap/template/repository/TemplateSpecification.java:85-86 | A list has at most as many distinct elements as entries, with equality exactly when no entry repeats. |
| Members.FindByEmail | backend/src/test/java/codezap/member/service/MemberServiceTest.java:75-100 | Some means a stored member with that email. None means no member has it. |
| Members.Authenticate | backend/src/test/java/codezap/member/service/MemberServiceTest.java:75-140 | Success only on a stored (email, password) pair, and always on one when emails are unique. It returns that member's identity, and otherwise "인증에 실패했습니다.". |
| Members.SignupThenLogin | backend/src/test/java/codezap/member/service/MemberServiceTest.java:36-87 | A member just stored logs in with their email and password and gets their own identity back. |
| Members.MemberService.Signup | backend/src/test/java/codezap/member/service/MemberServiceTest.java:36-67 | A stored email is refused first and a stored username second, both without change. Otherwise the member is stored under the next id with the request's fields. Emails and usernames stay unique. |
| Members.MemberService.Login | backend/src/test/java/codezap/member/service/MemberServiceTest.java:75-100 | Succeeds exactly on a stored (email, password) pair, returning that member's DTO. It otherwise fails with the authentication error. |
| Members.MemberService.CheckLogin | backend/src/test/java/codezap/member/service/MemberServiceTest.java:108-140 | The decoded credential passes exactly when it is a stored (email, password) pair. Otherwise it fails with the authentication error. |
| Members.SignupScenario | backend/src/test/java/codezap/member/service/MemberServiceTest.java:36-43 | The first signup gets id 1 with the request's fields. |
| Members.DuplicateSignupScenario | backend/src/test/java/codezap/member/service/MemberServiceTest.java:45-67 | A stored email and a stored username are refused, each with the test's message. |
| Members.LoginScenario | backend/src/test/java/codezap/member/service/MemberServiceTest.java:75-140 | The stored pair logs in and passes the cookie check. A wrong password or an unknown pair fails with "인증에 실패했습니다.". |

## Left out

- SQL LIKE semantics: `%` and `_` in the keyword are wildcards in the query, and case sensitivity depends on the database collation. The model matches the trimmed keyword as a plain substring.
- The JPA Criteria machinery (`CriteriaBuilder`, subqueries, paging, sorting) is not modelled. Only the selection meaning over in-memory rows is.
- Search order is not modelled. `Select` keeps table order, while the query's order comes from the caller's paging and sorting.
- Ids are unbounded integers. 64-bit `Long` ids and their overflow are not modelled.
- The service source of `TagService`, `MemberService` and `AuthService` is not part of this model.
  - Their behaviour is taken from `TagServiceTest` and `MemberServiceTest`.
  - `updateTags` is modelled as deleting the template's links to unwanted names, then `createTags`.
  - `findAllByTemplates` lists tags in the order of their first link.
  - Tag ids are positions in the tag table.
  - Member ids are 1, 2, 3, … in signup order.
  - Signup checks the email before the username.
- `TagServiceTest.java:134-149` is a disabled test for an unsaved template. Its behaviour is not implemented upstream and is not modelled.
- Members.MemberService.Login: the test expects a `MemberDto`, while `MemberController.java:49` expects the login to return the Basic credential string. The model follows the test. `MemberDto` is modelled as the member's id and email, since the DTO class is not part of this model.
- Members.MemberService.CheckLogin: finding the Authorization cookie and base64-decoding the RFC 7617 credential are library calls. The check takes the decoded (user-id, password) pair.
- `MemberRepository.java` declares name-based lookups with no behaviour. The store is a sequence of members, looked up by email and username as the tests do.
- `TemplateController.java`, `MemberController.java`, cookie attributes and the frontend are HTTP and UI plumbing, and are not modelled.
- Concurrency, transactions and database uniqueness constraints under concurrent requests are not modelled. Each operation is atomic.
- Likes.LikesService: the template and member tables are fixed sets of ids, because `like` only reads them.

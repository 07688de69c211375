# Menu template tags — a Dafny model

This project models the template tags of the menus application
(`core/menus/templatetags/menu.py`): the `menu` tag's argument parser, the
menu node that renders a menu for the viewing user, and the `matchlink` tag
that marks the link best matching a reference URL.

- `wrappers.dfy` — `Option` and `Result`.
- `menu.dfy` — module `MenuTags`:
  - stored link rows (`LinkRecord`) and the viewer (`User`);
  - the link model instance (`class Link`), whose title, description, url and
    `authorized` fields the menu node updates in place;
  - the per-link authorization decision (`Authorized`) and its properties;
  - the parser (`ParseMenuTag`);
  - the node's render method: `LoadLinks`, the loop that loads each link
    object and hands it to `DecorateLink`, which renders and authorizes it in
    place; `Render`, the method as written; `RenderCorrected`, the same with
    the template argument resolved (see "## Findings");
  - the `matchlink` scan (`MatchLink`, a loop) with its specification
    `BestMatch` and the arg-min characterization `IsBestMatch`.
- `menu_examples.dfy` — module `MenuExamples`: the behaviour on concrete menus.

Collaborators are parameters:
- the template engine rendering a string against the context is `renderTemplate`;
- resolving a compiled filter expression against the context is `resolve`;
- `render_to_string` is `renderToString`; it receives either a template
  name or, as the code is written, an unresolved template expression;
- the viewer from `context['user']` is `user`;
- the database is a map from menu slug to the menu's link rows in menu order.
  A slug missing from the map is `Menu.DoesNotExist`.

Behaviour of the code worth noting:
- `elif link.only_with_perms:` tests the truthiness of a related manager,
  which is always true. The permission loop therefore runs whenever it is
  reached, and an empty requirement list leaves the link authorized. That is
  the same result as testing for a non-empty requirement list.
- The `only_staff` test repeats `not (is_staff or is_superuser)` inside a
  branch where that already holds. The model keeps it;
  `StaffOnlyRefused` shows that `only_staff` alone decides there.
- Permissions are checked against `user.user_permissions` only. Permissions
  the user has through groups do not count.
- An empty url never wins, even against an empty reference: the score starts
  at `len(ref_url)` and only a strictly smaller remainder replaces it
  (`EmptyReferenceNeverMatches`).
- `matched_link == link` compares model instances, which Django does by
  primary key. The model compares `id`s.

## Model

| member | source | states |
|---|---|---|
| `MenuTags.ParseMenuTag` | core/menus/templatetags/menu.py:79-90 | fewer than two tokens is a syntax error naming the tag, and only then; otherwise the slug is the compiled second token |
| `MenuTags.SlugOnlyUsesDefaultTemplate` | core/menus/templatetags/menu.py:83-85 | with exactly two tokens the node uses `menus/menu.html` |
| `MenuTags.ExtraTokensIgnored` | core/menus/templatetags/menu.py:86-88 | with three or more tokens the third is the compiled template and tokens after it do not change the result |
| `MenuTags.ExplicitTemplateNeverResolvedAsWritten` | core/menus/templatetags/menu.py:64-67 | as written, a template given as third token stays an unresolved expression, never a name, so `Render` passes something other than the corrected choice of `RenderCorrected`, whatever the context resolves the token to |
| `MenuTags.TemplateNameAsWritten` | core/menus/templatetags/menu.py:64-67 | as written, only the default file yields a template name; a compiled argument is passed on unresolved |
| `MenuTags.TemplateName` | core/menus/templatetags/menu.py:64-67 | corrected resolution: agrees with the as-written choice wherever that is a name, and resolves a compiled argument against the context |
| `MenuTags.TemplateNameChoosesArgument` | core/menus/templatetags/menu.py:83-88 | corrected resolution: the template is the context value of the third token, or the default file with two tokens |
| `MenuTags.Authorized` | core/menus/templatetags/menu.py:48-61 | the first-match checks equal one closed formula: staff or superuser, or else authenticated when required, not staff-only, and holding every required permission |
| `MenuTags.StaffBypassesPolicy` | core/menus/templatetags/menu.py:48-52 | a staff or superuser viewer is authorized for every link whatever its policy |
| `MenuTags.AnonymousRefused` | core/menus/templatetags/menu.py:53-54 | an authentication-only link is refused to an anonymous non-staff viewer whatever its other policy fields |
| `MenuTags.StaffOnlyRefused` | core/menus/templatetags/menu.py:55-56 | a staff-only link is refused to every non-staff, non-superuser viewer whatever permissions they hold |
| `MenuTags.PermissionBranch` | core/menus/templatetags/menu.py:57-61 | past the flag checks, authorized iff every required permission is held; no requirement means authorized |
| `MenuTags.AuthorizedIgnoresPermissionOrder` | core/menus/templatetags/menu.py:58-59 | the decision depends on the required and held permissions only as sets, not on order or repetition |
| `MenuTags.Link.Load` | core/menus/templatetags/menu.py:44-46 | a loaded link instance carries its row's key, template strings and policy |
| `MenuTags.Decorate` | core/menus/templatetags/menu.py:47-61 | a decorated link differs from its row only in title, description and url, and carries the authorization decision |
| `MenuTags.DecorateAll` | core/menus/templatetags/menu.py:46-51 | one decorated entry per link of the menu |
| `MenuTags.DecorateAllKeepsEveryLink` | core/menus/templatetags/menu.py:46-51 | the links handed to the template are all the menu's links, unauthorized ones included, in the same order, each with rendered title, description and url, unchanged key and policy, and its authorization decision |
| `MenuTags.DecorateLink` | core/menus/templatetags/menu.py:47-61 | a loaded link ends with its title, description and url rendered, its key and policy unchanged, and `authorized` set to the authorization decision for the viewer |
| `MenuTags.LoadLinks` | core/menus/templatetags/menu.py:44-61 | the loaded and decorated link instances, as the template sees them, are exactly the menu's rows decorated in order |
| `MenuTags.Render` | core/menus/templatetags/menu.py:38-70 | a missing menu or a menu without links renders as ""; otherwise the output is `render_to_string` given the as-written template choice (an unresolved expression for an explicit template argument) and every link decorated in menu order |
| `MenuTags.RenderCorrected` | core/menus/templatetags/menu.py:38-70 | as `Render`, but `render_to_string` always receives a template name: the default file or the context value of the template argument |
| `MenuTags.Matches` | core/menus/templatetags/menu.py:106 | the equality test is subsumed: a url matches exactly when it is a prefix of the reference URL |
| `MenuTags.BestMatch` | core/menus/templatetags/menu.py:102-111 | the scan's chosen link has a non-empty url that is a prefix of the reference, no matching url is longer, earlier matching urls are strictly shorter, and the score is the remainder length; with no choice the score stays at the reference length and every matching url is empty |
| `MenuTags.BestMatchIsTheBest` | core/menus/templatetags/menu.py:102-111 | the scan chooses link k exactly when k is the best match, and chooses none exactly when no non-empty url matches |
| `MenuTags.EmptyReferenceNeverMatches` | core/menus/templatetags/menu.py:102-109 | with an empty reference URL no link is ever chosen, not even one whose url renders empty |
| `MenuTags.MatchLink` | core/menus/templatetags/menu.py:95-114 | returns ` class="<css_class>"` exactly when the best match among the menu's links has the given link's key, and "" otherwise, including when nothing matches |
| `MenuExamples.LongerPrefixWins` | core/menus/templatetags/menu.py:104-111 | of `/a/` and `/a/b/`, the reference `/a/b/c/` is best matched by `/a/b/` |
| `MenuExamples.FirstOfEqualUrlsWins` | core/menus/templatetags/menu.py:109-111 | of two links rendering to `/x/`, the first is the best match for `/x/` |
| `MenuExamples.BothPermissionsRequired` | core/menus/templatetags/menu.py:57-61 | a link requiring `p1` and `p2` is refused to a viewer holding only `p1` and granted to one holding both |

## Left out

- The template engine, context lookups and `render_to_string` are opaque function parameters. Their errors (a malformed template string, a missing template file) are not modelled.
- A missing `user` in the context (`context['user']` raising) is not modelled: the viewer is a parameter.
- Errors raised by `parser.compile_filter` for a malformed argument are not modelled; a compiled expression is kept as its token.
- The text of the syntax error message is not modelled; the error carries the tag name.
- The ordering of `menu.links.all()` by sort order is the database's: the store hands the rows already in menu order. The link and menu models are not part of this model.
- `MenuTags.MatchLink`: `css_class` has no default value in Dafny; `DefaultCssClass` holds the source's default `"active"`.
- `MenuTags.Render`: the link objects also stay in the queryset's cache after rendering. Only their states as handed to the template are modelled.
- The views, URL routing and installation scripts of the repository are not part of this model.

## Findings

| source | as written | input that shows it | evidently intended | confidence | as-written member | corrected member |
|---|---|---|---|---|---|---|
| core/menus/templatetags/menu.py:64-67 | the parser compiles the third token into a filter expression, but the node resolves the template only when it is a `template.Variable`, so the filter expression object itself is passed to `render_to_string` as the template name | `{% menu main "custom.html" %}` for a menu `main` with at least one link | resolve the compiled template argument against the context and render that file | medium; not executed | `MenuTags.Render` | `MenuTags.RenderCorrected` |

/**
  The menu template tags of the menus application: the `menu` block tag
  (its argument parser and the node that renders a menu) and the
  `matchlink` tag that marks the link best matching a reference URL.

  Collaborators are parameters:
  - `resolve` evaluates a compiled filter expression (given by its token)
    against the template context;
  - `renderTemplate` renders a string as a template against the context;
  - `renderToString` renders a named template file with the links;
  - the menus stored in the database are a map from slug to the menu's
    links, already in the menu's sort order.
*/
module MenuTags {
  import opened Wrappers

  /** A permission row; two rows are equal exactly when their identifiers are. */
  type Permission = string

  /** The viewing user, as the template context supplies it. */
  datatype User = User(
    isStaff: bool,
    isSuperuser: bool,
    isAuthenticated: bool,
    permissions: seq<Permission>)  // user.user_permissions.all()

  /** A stored link row: template strings and the link's access policy. */
  datatype LinkRecord = LinkRecord(
    id: nat,  // primary key; model instances compare equal exactly when their keys do
    title: string,
    description: string,
    url: string,
    onlyAuthenticated: bool,
    onlyStaff: bool,
    onlyWithPerms: seq<Permission>)

  /** What the menu template receives for one link: its fields after rendering,
      and the `authorized` flag computed for the viewer. */
  datatype RenderedLink = RenderedLink(row: LinkRecord, authorized: bool)

  /** A link model instance loaded from the database. The menu node renders
      its template strings and sets `authorized` on it in place. */
  class Link {
    const id: nat
    var title: string
    var description: string
    var url: string
    const onlyAuthenticated: bool
    const onlyStaff: bool
    const onlyWithPerms: seq<Permission>
    var authorized: bool

    /** Instantiates a row, as iterating over `menu.links.all()` does;
        `authorized` is not a stored field and is left unset. */
    constructor Load(r: LinkRecord)
      ensures id == r.id && title == r.title && description == r.description && url == r.url
      ensures onlyAuthenticated == r.onlyAuthenticated && onlyStaff == r.onlyStaff
      ensures onlyWithPerms == r.onlyWithPerms
    {
      id := r.id;
      title := r.title;
      description := r.description;
      url := r.url;
      onlyAuthenticated := r.onlyAuthenticated;
      onlyStaff := r.onlyStaff;
      onlyWithPerms := r.onlyWithPerms;
    }

    /** The instance as the menu template sees it. */
    function Snapshot(): RenderedLink
      reads this
    {
      RenderedLink(LinkRecord(id, title, description, url, onlyAuthenticated, onlyStaff, onlyWithPerms), authorized)
    }
  }

  // ---------------------------------------------------------------------------
  // Authorization of one link

  /** Every required permission is among the held ones. */
  predicate HoldsAll(held: seq<Permission>, required: seq<Permission>)
  {
    forall p :: p in required ==> p in held
  }

  /** The `authorized` flag the menu node computes for one link: staff and
      superusers pass; otherwise the first applicable check decides. The
      staff test inside the non-staff branch is kept as the source writes it.
      The source tests the truthiness of the related-permission manager, which
      is always true, so the permission loop runs whenever it is reached and
      an empty requirement list leaves the link authorized. The first-match
      checks amount to one closed formula. */
  function Authorized(user: User, link: LinkRecord): (ok: bool)
    ensures ok <==>
      (user.isStaff || user.isSuperuser ||
        ((!link.onlyAuthenticated || user.isAuthenticated) && !link.onlyStaff &&
         forall p :: p in link.onlyWithPerms ==> p in user.permissions))
  {
    if user.isStaff || user.isSuperuser then true
    else if link.onlyAuthenticated && !user.isAuthenticated then false
    else if link.onlyStaff && !(user.isStaff || user.isSuperuser) then false
    else HoldsAll(user.permissions, link.onlyWithPerms)
  }

  /** Staff and superusers are authorized for every link, whatever its policy. */
  lemma StaffBypassesPolicy(user: User, link: LinkRecord)
    requires user.isStaff || user.isSuperuser
    ensures Authorized(user, link)
  {
  }

  /** An authentication-only link is refused to an anonymous, non-staff viewer,
      whatever its other policy fields say. */
  lemma AnonymousRefused(user: User, link: LinkRecord)
    requires !user.isStaff && !user.isSuperuser && !user.isAuthenticated
    requires link.onlyAuthenticated
    ensures !Authorized(user, link)
  {
  }

  /** A staff-only link is refused to every non-staff, non-superuser viewer,
      whatever permissions the viewer holds. */
  lemma StaffOnlyRefused(user: User, link: LinkRecord)
    requires !user.isStaff && !user.isSuperuser
    requires link.onlyStaff
    ensures !Authorized(user, link)
  {
  }

  /** Once neither flag check fires, the link is authorized exactly when the
      viewer holds every required permission; none required means authorized. */
  lemma PermissionBranch(user: User, link: LinkRecord)
    requires !user.isStaff && !user.isSuperuser
    requires !(link.onlyAuthenticated && !user.isAuthenticated) && !link.onlyStaff
    ensures Authorized(user, link) <==> forall p :: p in link.onlyWithPerms ==> p in user.permissions
    ensures link.onlyWithPerms == [] ==> Authorized(user, link)
  {
  }

  /** The decision depends on the permission collections only as sets:
      neither their order nor repetitions matter. */
  lemma AuthorizedIgnoresPermissionOrder(user: User, link: LinkRecord, held: seq<Permission>, required: seq<Permission>)
    requires forall p :: p in held <==> p in user.permissions
    requires forall p :: p in required <==> p in link.onlyWithPerms
    ensures Authorized(user.(permissions := held), link.(onlyWithPerms := required)) == Authorized(user, link)
  {
  }

  // ---------------------------------------------------------------------------
  // Decorating the links of a menu

  /** One link as the menu template receives it: only the three template
      strings of the row change. */
  function Decorate(renderTemplate: string -> string, user: User, r: LinkRecord): (d: RenderedLink)
    ensures d.row.(title := r.title, description := r.description, url := r.url) == r
    ensures d.authorized == Authorized(user, r)
  {
    RenderedLink(
      r.(title := renderTemplate(r.title),
         description := renderTemplate(r.description),
         url := renderTemplate(r.url)),
      Authorized(user, r))
  }

  /** Every link of a menu, decorated, in menu order. */
  function DecorateAll(renderTemplate: string -> string, user: User, rows: seq<LinkRecord>): (r: seq<RenderedLink>)
    ensures |r| == |rows|
  {
    if rows == [] then [] else [Decorate(renderTemplate, user, rows[0])] + DecorateAll(renderTemplate, user, rows[1..])
  }

  /** Decorating keeps every link, unauthorized ones included, in the same
      order: the i-th entry is the i-th row with its title, description and
      url rendered, its policy and key unchanged, and its `authorized` flag. */
  lemma {:induction false} DecorateAllKeepsEveryLink(renderTemplate: string -> string, user: User, rows: seq<LinkRecord>)
    ensures |DecorateAll(renderTemplate, user, rows)| == |rows|
    ensures forall i :: 0 <= i < |rows| ==>
      var d := DecorateAll(renderTemplate, user, rows)[i];
      && d.row.id == rows[i].id
      && d.row.title == renderTemplate(rows[i].title)
      && d.row.description == renderTemplate(rows[i].description)
      && d.row.url == renderTemplate(rows[i].url)
      && d.row.onlyAuthenticated == rows[i].onlyAuthenticated
      && d.row.onlyStaff == rows[i].onlyStaff
      && d.row.onlyWithPerms == rows[i].onlyWithPerms
      && d.authorized == Authorized(user, rows[i])
  {
    if rows != [] {
      DecorateAllKeepsEveryLink(renderTemplate, user, rows[1..]);
      var d := DecorateAll(renderTemplate, user, rows);
      forall i | 0 <= i < |rows|
        ensures d[i] == Decorate(renderTemplate, user, rows[i])
      {
        if i > 0 {
          assert d[i] == DecorateAll(renderTemplate, user, rows[1..])[i - 1];
        }
      }
    }
  }

  /** The snapshots of a sequence of link instances. */
  function Snapshots(links: seq<Link>): seq<RenderedLink>
    reads set l | l in links
  {
    seq(|links|, j requires 0 <= j < |links| reads set l | l in links => links[j].Snapshot())
  }

  // ---------------------------------------------------------------------------
  // The `menu` tag

  /** A compiled filter expression, kept as the token it was compiled from. */
  datatype Expr = Expr(token: string)

  /** The template a menu node renders with: the default file name, or the
      compiled third tag argument. */
  datatype TemplateRef = Literal(name: string) | Compiled(expr: Expr)

  datatype MenuNode = MenuNode(slug: Expr, htmlTemplate: TemplateRef)

  /** The template syntax error the parser raises, naming the tag. */
  datatype TagSyntaxError = TagSyntaxError(tagName: string)

  const DefaultTemplate: string := "menus/menu.html"

  /** Parses `{% menu menu_slug [html_template] %}` given the tag's tokens
      (the tag name first, which the template parser always supplies). */
  function ParseMenuTag(args: seq<string>): (r: Result<MenuNode, TagSyntaxError>)
    requires |args| >= 1
    ensures r.Failure? <==> |args| < 2
    ensures r.Failure? ==> r.error.tagName == args[0]
    ensures r.Success? ==> r.value.slug == Expr(args[1])
  {
    if |args| < 2 then Failure(TagSyntaxError(args[0]))
    else if |args| == 2 then Success(MenuNode(Expr(args[1]), Literal(DefaultTemplate)))
    else Success(MenuNode(Expr(args[1]), Compiled(Expr(args[2]))))
  }

  /** With the slug alone, the default template file is used. */
  lemma SlugOnlyUsesDefaultTemplate(args: seq<string>)
    requires |args| == 2
    ensures ParseMenuTag(args) == Success(MenuNode(Expr(args[1]), Literal("menus/menu.html")))
  {
  }

  /** A third token names the template; any further tokens are ignored. */
  lemma ExtraTokensIgnored(args: seq<string>)
    requires |args| >= 3
    ensures ParseMenuTag(args) == ParseMenuTag(args[..3])
    ensures ParseMenuTag(args) == Success(MenuNode(Expr(args[1]), Compiled(Expr(args[2]))))
  {
  }

  /** What the node's template attribute becomes before it reaches
      `render_to_string`. */
  datatype TemplateChoice = Named(name: string) | UnresolvedExpression(expr: Expr)

  /** The template resolution as the node's render method writes it: only a
      context variable is resolved, and the parser never produces one, so a
      compiled template argument is passed on as the expression itself. */
  function TemplateNameAsWritten(ref: TemplateRef): (c: TemplateChoice)
    ensures c.Named? <==> ref.Literal?
    ensures c.Named? ==> c.name == ref.name
  {
    match ref
    case Literal(name) => Named(name)
    case Compiled(e) => UnresolvedExpression(e)
  }

  /** The template resolution the tag evidently intends: a compiled template
      argument is resolved against the context. */
  function TemplateName(ref: TemplateRef, resolve: string -> string): (name: string)
    ensures TemplateNameAsWritten(ref).Named? ==> name == TemplateNameAsWritten(ref).name
    ensures ref.Compiled? ==> name == resolve(ref.expr.token)
  {
    match ref
    case Literal(name) => name
    case Compiled(e) => resolve(e.token)
  }

  /** As written, an explicit template argument never yields a template name:
      `Render` hands the unresolved expression to `render_to_string`, where
      `RenderCorrected` hands it the resolved name. */
  lemma ExplicitTemplateNeverResolvedAsWritten(args: seq<string>, resolve: string -> string)
    requires |args| >= 3
    ensures ParseMenuTag(args).Success?
    ensures TemplateNameAsWritten(ParseMenuTag(args).value.htmlTemplate) == UnresolvedExpression(Expr(args[2]))
    ensures TemplateNameAsWritten(ParseMenuTag(args).value.htmlTemplate) != Named(TemplateName(ParseMenuTag(args).value.htmlTemplate, resolve))
  {
  }

  /** Corrected, the template is the context value of the third argument, and
      with two tokens it is the default file under either reading. */
  lemma TemplateNameChoosesArgument(args: seq<string>, resolve: string -> string)
    requires |args| >= 2
    ensures ParseMenuTag(args).Success?
    ensures |args| >= 3 ==> TemplateName(ParseMenuTag(args).value.htmlTemplate, resolve) == resolve(args[2])
    ensures |args| == 2 ==> TemplateName(ParseMenuTag(args).value.htmlTemplate, resolve) == DefaultTemplate
    ensures |args| == 2 ==> TemplateNameAsWritten(ParseMenuTag(args).value.htmlTemplate) == Named(DefaultTemplate)
  {
  }

  /** The body of the render loop for one freshly loaded link: renders its
      title, description and url in place and sets its `authorized` flag,
      testing the required permissions against `userPerms` and stopping at the
      first one missing. */
  method DecorateLink(link: Link, renderTemplate: string -> string, user: User, userPerms: seq<Permission>)
    requires userPerms == user.permissions
    modifies link
    ensures link.Snapshot() == Decorate(renderTemplate, user, old(link.Snapshot()).row)
  {
    var perms := link.onlyWithPerms;
    link.authorized := true;
    link.title := renderTemplate(link.title);
    link.description := renderTemplate(link.description);
    link.url := renderTemplate(link.url);
    if !(user.isStaff || user.isSuperuser) {
      if link.onlyAuthenticated && !user.isAuthenticated {
        link.authorized := false;
      } else if link.onlyStaff && !(user.isStaff || user.isSuperuser) {
        link.authorized := false;
      } else {
        var k := 0;
        while k < |perms|
          invariant 0 <= k <= |perms|
          invariant link.authorized
          invariant forall m :: 0 <= m < k ==> perms[m] in userPerms
        {
          if perms[k] !in userPerms {
            link.authorized := false;
            break;
          }
          k := k + 1;
        }
        assert link.authorized == HoldsAll(userPerms, perms);
      }
    }
  }

  /** The loop of the node's render method: loads each stored row of the
      menu as a fresh link instance, in order, and decorates it in place. */
  method LoadLinks(rows: seq<LinkRecord>, renderTemplate: string -> string, user: User)
    returns (links: seq<Link>)
    ensures Snapshots(links) == DecorateAll(renderTemplate, user, rows)
  {
    links := [];
    var userPerms := user.permissions;
    var i := 0;
    while i < |rows|
      invariant 0 <= i <= |rows|
      invariant |links| == i
      invariant forall j :: 0 <= j < i ==> links[j].Snapshot() == Decorate(renderTemplate, user, rows[j])
    {
      var link := new Link.Load(rows[i]);
      assert link.Snapshot().row == rows[i];
      DecorateLink(link, renderTemplate, user, userPerms);
      links := links + [link];
      i := i + 1;
    }
    DecorateAllKeepsEveryLink(renderTemplate, user, rows);
    assert Snapshots(links) == DecorateAll(renderTemplate, user, rows);
  }

  /** Renders the menu the node names, as the source writes it: looks the
      menu up by slug, loads and decorates its links, then hands the
      template choice of `TemplateNameAsWritten` and the links to
      `render_to_string`. A missing menu or a menu without links renders
      as "". */
  method Render(
    node: MenuNode,
    resolve: string -> string,
    renderTemplate: string -> string,
    renderToString: (TemplateChoice, seq<RenderedLink>) -> string,
    menus: map<string, seq<LinkRecord>>,
    user: User)
    returns (output: string)
    ensures resolve(node.slug.token) !in menus ==> output == ""
    ensures resolve(node.slug.token) in menus && menus[resolve(node.slug.token)] == [] ==> output == ""
    ensures resolve(node.slug.token) in menus && menus[resolve(node.slug.token)] != [] ==>
      output == renderToString(
        TemplateNameAsWritten(node.htmlTemplate),
        DecorateAll(renderTemplate, user, menus[resolve(node.slug.token)]))
  {
    output := "";
    var slug := resolve(node.slug.token);
    var links: seq<Link> := [];
    if slug in menus {
      links := LoadLinks(menus[slug], renderTemplate, user);
    }
    var htmlTemplate := TemplateNameAsWritten(node.htmlTemplate);
    if slug in menus && links != [] {
      output := renderToString(htmlTemplate, Snapshots(links));
    }
  }

  /** The render method with the template argument resolved against the
      context, as the tag evidently intends: the menu template is always
      given by name. */
  method RenderCorrected(
    node: MenuNode,
    resolve: string -> string,
    renderTemplate: string -> string,
    renderToString: (TemplateChoice, seq<RenderedLink>) -> string,
    menus: map<string, seq<LinkRecord>>,
    user: User)
    returns (output: string)
    ensures resolve(node.slug.token) !in menus ==> output == ""
    ensures resolve(node.slug.token) in menus && menus[resolve(node.slug.token)] == [] ==> output == ""
    ensures resolve(node.slug.token) in menus && menus[resolve(node.slug.token)] != [] ==>
      output == renderToString(
        Named(TemplateName(node.htmlTemplate, resolve)),
        DecorateAll(renderTemplate, user, menus[resolve(node.slug.token)]))
  {
    output := "";
    var slug := resolve(node.slug.token);
    var links: seq<Link> := [];
    if slug in menus {
      links := LoadLinks(menus[slug], renderTemplate, user);
    }
    var htmlTemplate := Named(TemplateName(node.htmlTemplate, resolve));
    if slug in menus && links != [] {
      output := renderToString(htmlTemplate, Snapshots(links));
    }
  }

  // ---------------------------------------------------------------------------
  // The `matchlink` tag

  const DefaultCssClass: string := "active"

  /** The attribute `matchlink` emits for the best-matching link. */
  function ActiveClass(cssClass: string): string
  {
    " class=\"" + cssClass + "\""
  }

  /** `url == ref_url or ref_url.startswith(url)`: the equality test is
      subsumed, a url matches exactly when it is a prefix of the reference. */
  predicate Matches(url: string, refUrl: string): (m: bool)
    ensures m <==> url <= refUrl
  {
    url == refUrl || url <= refUrl
  }

  /** The rendered url of every link of the menu, in menu order. */
  function RenderedUrls(renderTemplate: string -> string, links: seq<LinkRecord>): seq<string>
  {
    seq(|links|, i requires 0 <= i < |links| => renderTemplate(links[i].url))
  }

  /** Link k is the best match: its url is a non-empty prefix of the
      reference, no matching url is longer, and every earlier matching url is
      strictly shorter. */
  ghost predicate IsBestMatch(urls: seq<string>, refUrl: string, k: int)
  {
    && 0 <= k < |urls|
    && Matches(urls[k], refUrl)
    && urls[k] != []
    && (forall j :: 0 <= j < |urls| && Matches(urls[j], refUrl) ==> |urls[j]| <= |urls[k]|)
    && (forall j :: 0 <= j < k && Matches(urls[j], refUrl) ==> |urls[j]| < |urls[k]|)
  }

  /** The state of the scan: the best remainder length so far and the
      position of the link that left it. */
  datatype ScanState = ScanState(score: nat, matched: Option<nat>)

  /** The state the scan of `matchlink` reaches after the given urls. */
  function BestMatch(urls: seq<string>, refUrl: string): (st: ScanState)
    ensures st.matched.None? ==>
      && st.score == |refUrl|
      && forall j :: 0 <= j < |urls| && Matches(urls[j], refUrl) ==> urls[j] == []
    ensures st.matched.Some? ==>
      && IsBestMatch(urls, refUrl, st.matched.value)
      && st.score == |refUrl| - |urls[st.matched.value]|
    decreases |urls|
  {
    if urls == [] then ScanState(|refUrl|, None)
    else
      var prev := BestMatch(urls[..|urls| - 1], refUrl);
      var url := urls[|urls| - 1];
      if Matches(url, refUrl) && |refUrl| - |url| < prev.score
      then ScanState(|refUrl| - |url|, Some(|urls| - 1))
      else prev
  }

  /** The best match is unique, so the scan finds exactly it, and finds
      nothing exactly when no non-empty url matches. */
  lemma BestMatchIsTheBest(urls: seq<string>, refUrl: string, k: int)
    ensures BestMatch(urls, refUrl).matched == Some(k) <==> IsBestMatch(urls, refUrl, k)
    ensures BestMatch(urls, refUrl).matched.None? <==>
      forall j :: 0 <= j < |urls| && Matches(urls[j], refUrl) ==> urls[j] == []
  {
  }

  /** An empty reference URL never has a best match, not even a link whose
      url renders empty. */
  lemma EmptyReferenceNeverMatches(urls: seq<string>)
    ensures BestMatch(urls, "").matched.None?
  {
  }

  /** Checks whether `link` is the best match for `refUrl` among the links of
      its menu, returning the class attribute if so and "" otherwise. */
  method MatchLink(
    renderTemplate: string -> string,
    link: Link,
    menuLinks: seq<LinkRecord>,
    refUrl: string,
    cssClass: string)
    returns (s: string)
    ensures s == ActiveClass(cssClass) || s == ""
    ensures s == ActiveClass(cssClass) <==>
      exists k :: IsBestMatch(RenderedUrls(renderTemplate, menuLinks), refUrl, k) && menuLinks[k].id == link.id
  {
    ghost var urls := RenderedUrls(renderTemplate, menuLinks);
    var score := |refUrl|;
    var matchedLink: Option<LinkRecord> := None;
    for i := 0 to |menuLinks|
      invariant score == BestMatch(urls[..i], refUrl).score
      invariant BestMatch(urls[..i], refUrl).matched.None? ==> matchedLink.None?
      invariant BestMatch(urls[..i], refUrl).matched.Some? ==>
        matchedLink == Some(menuLinks[BestMatch(urls[..i], refUrl).matched.value])
    {
      assert urls[..i + 1][..i] == urls[..i];
      var url := renderTemplate(menuLinks[i].url);
      if url == refUrl || url <= refUrl {
        var remainder := refUrl[|url|..];
        var currentScore := |remainder|;
        if currentScore < score {
          score := currentScore;
          matchedLink := Some(menuLinks[i]);
        }
      }
    }
    assert urls[..|menuLinks|] == urls;
    if matchedLink.Some? && matchedLink.value.id == link.id {
      s := ActiveClass(cssClass);
    } else {
      s := "";
    }
    var st := BestMatch(urls, refUrl);
    if st.matched.Some? {
      BestMatchIsTheBest(urls, refUrl, st.matched.value);
    }
    forall k | IsBestMatch(urls, refUrl, k)
      ensures st.matched == Some(k)
    {
      BestMatchIsTheBest(urls, refUrl, k);
    }
  }
}

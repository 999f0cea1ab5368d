/** services_create_templates.py: the patch that adds the user box and its
    styles to the index page, and the creation of the login and register
    pages. The file system is a map from path to contents; the login and
    register page texts are parameters. */
module Templates {
  import opened Text

  /** The class name whose presence means the index page is already patched. */
  const Marker: string := "user-info"
  const HeaderAnchor: string := "<header class=\"header\">"
  const HeadEnd: string := "</head>"

  /** The header block that replaces each header anchor; it starts with the
      anchor itself and holds the user box. */
  const HeaderReplacement: string := HeaderTop + UserBoxLine + HeaderBottom

  const HeaderTop: string :=
    HeaderAnchor + "\n"
    + "            <h1>English learning assistant</h1>\n"
  const UserBoxLine: string := UserBoxOpen + Marker + "\">\n"
  const UserBoxOpen: string := "            <div class=\""
  const HeaderBottom: string :=
    "                <span id=\"username\">"
    + "Welcome, {{ username }}</span>\n"
    + "                <a href=\"/logout\" "
    + "class=\"logout-btn\">Logout</a>\n"
    + "            </div>\n"
    + "        </header>"

  /** The CSS rules for the user box and the logout button. */
  const StyleAddition: string := UserInfoRule + StyleRest

  const UserInfoRule: string := "\n        ." + Marker + " {\n"
  const StyleRest: string :=
    "            display: flex;\n"
    + "            align-items: center;\n"
    + "            gap: 15px;\n"
    + "            margin-left: auto;\n"
    + "        }\n"
    + "        .logout-btn {\n"
    + "            background-color: #f44336;\n"
    + "            color: white;\n"
    + "            padding: 6px 12px;\n"
    + "            border-radius: 4px;\n"
    + "            text-decoration: none;\n"
    + "            font-size: 14px;\n"
    + "        }\n"
    + "        .logout-btn:hover {\n"
    + "            background-color: #d32f2f;\n"
    + "        }\n"
    + "        "

  const StyleBlock: string := "<style>" + StyleAddition + "</style>"

  /** The new index contents computed by `update_index_template`. */
  function PatchIndex(content: string): string
  {
    if Contains(content, Marker) then content
    else
      var updated := ReplaceAll(content, HeaderAnchor, HeaderReplacement);
      var pos := Find(updated, HeadEnd);
      if pos != -1 then updated[..pos] + StyleBlock + updated[pos..] else updated
  }

  /** Both inserted fragments carry the marker. */
  lemma FragmentsMarked()
    ensures Contains(HeaderReplacement, Marker)
    ensures Contains(StyleBlock, Marker)
  {
    assert OccursAt(Marker, Marker, 0);
    ContainsWithin(UserBoxOpen, Marker, "\">\n", Marker);
    ContainsWithin(HeaderTop, UserBoxLine, HeaderBottom, Marker);
    ContainsWithin("\n        .", Marker, " {\n", Marker);
    ContainsWithin([], UserInfoRule, StyleRest, Marker);
    assert [] + UserInfoRule + StyleRest == StyleAddition;
    ContainsWithin("<style>", StyleAddition, "</style>", Marker);
  }

  /** What the patch does: nothing to a page that has the marker; otherwise
      every header anchor is replaced (the page is cut at the anchors and glued
      back with the header block), and the style block is inserted right
      before the first `</head>` of that text, or not at all if there is none. */
  lemma PatchShape(content: string)
    ensures Contains(content, Marker) ==> PatchIndex(content) == content
    ensures !Contains(content, Marker) ==>
      var updated := Join(Split(content, HeaderAnchor), HeaderReplacement);
      var pieces := Split(content, HeaderAnchor);
      && Join(pieces, HeaderAnchor) == content
      && (forall piece :: piece in pieces ==> !Contains(piece, HeaderAnchor))
      && (!Contains(updated, HeadEnd) ==> PatchIndex(content) == updated)
      && (Contains(updated, HeadEnd) ==>
            exists pos :: 0 <= pos <= |updated|
              && OccursAt(updated, HeadEnd, pos)
              && (forall i :: 0 <= i < pos ==> !OccursAt(updated, HeadEnd, i))
              && PatchIndex(content) == updated[..pos] + StyleBlock + updated[pos..])
  {
    if !Contains(content, Marker) {
      ReplaceIsSplitJoin(content, HeaderAnchor, HeaderReplacement);
      SplitJoinInverse(content, HeaderAnchor);
      SplitPiecesFree(content, HeaderAnchor);
      var updated := Join(Split(content, HeaderAnchor), HeaderReplacement);
      var pos := Find(updated, HeadEnd);
      if pos >= 0 {
        assert OccursAt(updated, HeadEnd, pos);
      }
    }
  }

  /** A page with neither a header anchor nor a `</head>` is left as it is. */
  lemma PatchWithoutAnchors(content: string)
    requires !Contains(content, HeaderAnchor) && !Contains(content, HeadEnd)
    ensures PatchIndex(content) == content
  {
    if !Contains(content, Marker) {
      ReplaceAbsent(content, HeaderAnchor, HeaderReplacement);
    }
  }

  /** A page with either anchor carries the marker once patched. */
  lemma PatchMarks(content: string)
    requires Contains(content, HeaderAnchor) || Contains(content, HeadEnd)
    ensures Contains(PatchIndex(content), Marker)
  {
    if !Contains(content, Marker) {
      FragmentsMarked();
      var updated := ReplaceAll(content, HeaderAnchor, HeaderReplacement);
      if Contains(content, HeaderAnchor) {
        ReplacePresent(content, HeaderAnchor, HeaderReplacement);
        ContainsTrans(updated, HeaderReplacement, Marker);
      } else {
        ReplaceAbsent(content, HeaderAnchor, HeaderReplacement);
      }
      var pos := Find(updated, HeadEnd);
      if pos != -1 {
        ContainsWithin(updated[..pos], StyleBlock, updated[pos..], Marker);
      }
    }
  }

  /** Patching twice is patching once. */
  lemma PatchIdempotent(content: string)
    ensures PatchIndex(PatchIndex(content)) == PatchIndex(content)
  {
    if !Contains(content, Marker) {
      if Contains(content, HeaderAnchor) || Contains(content, HeadEnd) {
        PatchMarks(content);
      } else {
        PatchWithoutAnchors(content);
      }
    }
  }

  /** The file system as far as these functions see it: path to contents. */
  type Files = map<string, string>

  const IndexPath: string := "templates/index.html"
  const LoginPath: string := "templates/login.html"
  const RegisterPath: string := "templates/register.html"

  /** `update_index_template`: nothing without an index page or when it is
      already marked; otherwise the patched contents are written back. */
  function UpdateIndexTemplate(fs: Files): Files
  {
    if IndexPath !in fs then fs
    else if Contains(fs[IndexPath], Marker) then fs
    else fs[IndexPath := PatchIndex(fs[IndexPath])]
  }

  /** Only the index page can change, to its patched contents; without an
      index page nothing happens; running the update again changes nothing. */
  lemma UpdateIndexTemplateShape(fs: Files)
    ensures var r := UpdateIndexTemplate(fs);
      && r.Keys == fs.Keys
      && (forall p :: p in fs && p != IndexPath ==> r[p] == fs[p])
      && (IndexPath in fs ==> r[IndexPath] == PatchIndex(fs[IndexPath]))
      && (IndexPath !in fs ==> r == fs)
      && UpdateIndexTemplate(r) == r
  {
    if IndexPath in fs {
      var c := fs[IndexPath];
      PatchIdempotent(c);
      var r := UpdateIndexTemplate(fs);
      if !Contains(c, Marker) {
        if Contains(c, HeaderAnchor) || Contains(c, HeadEnd) {
          PatchMarks(c);
        } else {
          PatchWithoutAnchors(c);
          assert r == fs;
        }
      }
    }
  }

  /** `create_templates`: each page is written only when its file is absent. */
  function CreateTemplates(fs: Files, loginHtml: string, registerHtml: string): Files
  {
    var afterLogin := if LoginPath !in fs then fs[LoginPath := loginHtml] else fs;
    if RegisterPath !in afterLogin then afterLogin[RegisterPath := registerHtml] else afterLogin
  }

  /** Existing pages are never overwritten, missing ones get the page text,
      no other file changes, and a second run changes nothing. */
  lemma CreateTemplatesShape(fs: Files, loginHtml: string, registerHtml: string)
    ensures var r := CreateTemplates(fs, loginHtml, registerHtml);
      && r.Keys == fs.Keys + {LoginPath, RegisterPath}
      && (forall p :: p in fs ==> r[p] == fs[p])
      && (LoginPath !in fs ==> r[LoginPath] == loginHtml)
      && (RegisterPath !in fs ==> r[RegisterPath] == registerHtml)
      && CreateTemplates(r, loginHtml, registerHtml) == r
  {
    assert LoginPath != RegisterPath;
  }
}

/** Seeding an agent's skill folders from the catalog image and from the resolved skills, and collecting the rest. */
module Seeding {
  import opened Values

  /** A folder's files by relative path. */
  type Folder = map<string, string>

  const SKILL_FILE := "SKILL.md"

  /** The script's plain objects answer for these names too, through Object.prototype. */
  const INHERITED: set<string> := {"constructor", "toString", "valueOf", "hasOwnProperty", "isPrototypeOf",
                                   "propertyIsEnumerable", "toLocaleString"}

  /** `names[n]` of an object holding these names. */
  predicate Has(names: set<string>, n: string) { n in names || n in INHERITED }

  predicate Allowed(restrict: Option<set<string>>, n: string) { restrict.None? || Has(restrict.value, n) }

  function Copied(image: map<string, Folder>, restrict: Option<set<string>>): set<string> {
    set n | n in image && Allowed(restrict, n)
  }

  function Written(image: map<string, Folder>, inline: map<string, string>, restrict: Option<set<string>>): set<string> {
    set n | n in inline && !Has(Copied(image, restrict), n)
  }

  function Kept(image: map<string, Folder>, inline: map<string, string>, restrict: Option<set<string>>): set<string> {
    Copied(image, restrict) + Written(image, inline, restrict) + set n | n in inline && Allowed(restrict, n)
  }

  function FolderOf(skills: map<string, Folder>, n: string): Folder { if n in skills then skills[n] else map[] }

  /** A file that cannot be read counts as empty, and is written only when it differs. */
  function WriteIfChanged(folder: Folder, file: string, content: string): Folder {
    if (if file in folder then folder[file] else "") != content then folder[file := content] else folder
  }

  function SeededFolder(skills: map<string, Folder>, image: map<string, Folder>, inline: map<string, string>,
      restrict: Option<set<string>>, n: string): Folder
  {
    if n in Copied(image, restrict) then FolderOf(skills, n) + image[n]
    else if n in Written(image, inline, restrict) then WriteIfChanged(FolderOf(skills, n), SKILL_FILE, inline[n])
    else FolderOf(skills, n)
  }

  /** The skill folders after a seed. */
  function Seeded(skills: map<string, Folder>, image: map<string, Folder>, inline: map<string, string>, restrict: Option<set<string>>)
    : map<string, Folder>
  {
    map n | n in skills.Keys + Copied(image, restrict) + Written(image, inline, restrict) && n in Kept(image, inline, restrict)
      :: SeededFolder(skills, image, inline, restrict, n)
  }

  class Workspace {
    var skills: map<string, Folder>

    constructor (skills: map<string, Folder>)
      ensures this.skills == skills
    {
      this.skills := skills;
    }

    method CopyFromImage(image: map<string, Folder>, restrict: Option<set<string>>) returns (fromImage: set<string>)
      modifies this
      ensures fromImage == Copied(image, restrict) && fromImage <= image.Keys && Copies(old(skills), skills, image, fromImage)
    {
      hide Allowed;
      fromImage := {};
      var todo := image.Keys;
      while todo != {}
        invariant todo <= image.Keys
        invariant fromImage == set n | n in image && n !in todo && Allowed(restrict, n)
        invariant Copies(old(skills), skills, image, fromImage)
        decreases todo
      {
        var name :| name in todo;
        todo := todo - {name};
        if Allowed(restrict, name) {
          skills := skills[name := FolderOf(skills, name) + image[name]];
          fromImage := fromImage + {name};
        }
      }
    }

    method WriteInline(inline: map<string, string>, fromImage: set<string>) returns (written: set<string>)
      modifies this
      ensures written == (set n | n in inline && !Has(fromImage, n))
      ensures written <= inline.Keys && Writes(old(skills), skills, inline, written)
    {
      hide Has, WriteIfChanged;
      written := {};
      var todo := inline.Keys;
      while todo != {}
        invariant todo <= inline.Keys
        invariant written == set n | n in inline && n !in todo && !Has(fromImage, n)
        invariant Writes(old(skills), skills, inline, written)
        decreases todo
      {
        var name :| name in todo;
        todo := todo - {name};
        if !Has(fromImage, name) {
          skills := skills[name := WriteIfChanged(FolderOf(skills, name), SKILL_FILE, inline[name])];
          written := written + {name};
        }
      }
    }

    /** Copies the image's folders, writes the other resolved skills, and removes every folder not kept. */
    method Seed(image: map<string, Folder>, inline: map<string, string>, restrict: Option<set<string>>)
      modifies this
      ensures skills == Seeded(old(skills), image, inline, restrict)
    {
      hide *;
      ghost var before := skills;
      var fromImage := CopyFromImage(image, restrict);
      ghost var mid := skills;
      var written := WriteInline(inline, fromImage);
      ghost var after := skills;
      var keep := fromImage + written + set n | n in inline && Allowed(restrict, n);
      skills := map n | n in skills && n in keep :: skills[n];
      KeptIs(image, inline, restrict);
      forall n ensures (n in skills <==> n in Seeded(before, image, inline, restrict))
                    && (n in skills ==> skills[n] == Seeded(before, image, inline, restrict)[n])
      {
        KeptFolders(before, image, inline, restrict, n);
        SeedAt(before, mid, after, image, inline, restrict, n);
      }
    }
  }

  ghost predicate Copies(before: map<string, Folder>, after: map<string, Folder>, image: map<string, Folder>, names: set<string>)
    requires names <= image.Keys
  {
    && after.Keys == before.Keys + names
    && forall n :: n in after ==> after[n] == if n in names then FolderOf(before, n) + image[n] else FolderOf(before, n)
  }

  ghost predicate Writes(before: map<string, Folder>, after: map<string, Folder>, inline: map<string, string>, names: set<string>)
    requires names <= inline.Keys
  {
    && after.Keys == before.Keys + names
    && forall n :: n in after ==>
         after[n] == if n in names then WriteIfChanged(FolderOf(before, n), SKILL_FILE, inline[n]) else FolderOf(before, n)
  }

  lemma SeedAt(before: map<string, Folder>, mid: map<string, Folder>, after: map<string, Folder>,
      image: map<string, Folder>, inline: map<string, string>, restrict: Option<set<string>>, n: string)
    requires Copies(before, mid, image, Copied(image, restrict)) && Writes(mid, after, inline, Written(image, inline, restrict))
    ensures n in after <==> n in before || n in Copied(image, restrict) || n in Written(image, inline, restrict)
    ensures n in after ==> after[n] == SeededFolder(before, image, inline, restrict, n)
  {
    hide WriteIfChanged, Allowed, Has;
    if n in Copied(image, restrict) { InImageNotWritten(image, inline, restrict, n); }
  }

  lemma KeptIs(image: map<string, Folder>, inline: map<string, string>, restrict: Option<set<string>>)
    ensures Written(image, inline, restrict) == set n | n in inline && !Has(Copied(image, restrict), n)
    ensures Kept(image, inline, restrict)
         == Copied(image, restrict) + Written(image, inline, restrict) + set n | n in inline && Allowed(restrict, n)
  {
  }

  lemma KeptFolders(skills: map<string, Folder>, image: map<string, Folder>, inline: map<string, string>, restrict: Option<set<string>>, n: string)
    ensures n in Seeded(skills, image, inline, restrict)
       <==> (n in skills || n in Copied(image, restrict) || n in Written(image, inline, restrict)) && n in Kept(image, inline, restrict)
    ensures n in Seeded(skills, image, inline, restrict) ==>
              Seeded(skills, image, inline, restrict)[n] == SeededFolder(skills, image, inline, restrict, n)
  {
    hide Copied, Written, Kept, SeededFolder;
  }

  lemma InImageNotWritten(image: map<string, Folder>, inline: map<string, string>, restrict: Option<set<string>>, n: string)
    requires n in Copied(image, restrict)
    ensures n !in Written(image, inline, restrict)
  {
  }

  // ----- what a seed achieves -----

  /** The set the declaration asks for: the image's folders within the restriction, and the resolved skills. */
  function Wanted(image: map<string, Folder>, inline: map<string, string>, restrict: Option<set<string>>): set<string> {
    inline.Keys + set n | n in image && (restrict.None? || n in restrict.value)
  }

  /** No name answered for by Object.prototype spoils the seed: none slips past the restriction out of the image, and
      none that the image lacks is taken for one of its own while no earlier folder stands in for it. */
  predicate NothingInherited(skills: map<string, Folder>, image: map<string, Folder>, inline: map<string, string>, restrict: Option<set<string>>) {
    forall n :: n in INHERITED ==>
      && (n in image && restrict.Some? && n !in restrict.value ==> n in inline)
      && (n in inline && n !in image ==> n in skills)
  }

  /** The folders come out as exactly the wanted set, whatever was there before, if and only if no inherited name
      interferes. */
  lemma FoldersExactly(skills: map<string, Folder>, image: map<string, Folder>, inline: map<string, string>, restrict: Option<set<string>>)
    ensures Seeded(skills, image, inline, restrict).Keys == Wanted(image, inline, restrict)
       <==> NothingInherited(skills, image, inline, restrict)
  {
    hide SeededFolder;
    var got, want := Seeded(skills, image, inline, restrict).Keys, Wanted(image, inline, restrict);
    forall n ensures n in got <==> GotFolder(skills, image, inline, restrict, n) {
      InSeeded(skills, image, inline, restrict, n);
    }
    if NothingInherited(skills, image, inline, restrict) {
      forall n ensures n in got <==> n in want {
        NameRight(skills, image, inline, restrict, n);
      }
    } else {
      var n :| n in INHERITED && !((n in image && restrict.Some? && n !in restrict.value ==> n in inline)
                                   && (n in inline && n !in image ==> n in skills));
      NameRight(skills, image, inline, restrict, n);
    }
  }

  /** Whether a folder of that name is there afterwards. */
  predicate GotFolder(skills: map<string, Folder>, image: map<string, Folder>, inline: map<string, string>, restrict: Option<set<string>>, n: string) {
    || (n in image && Allowed(restrict, n))
    || (n in inline && !(n in INHERITED))
    || (n in inline && Allowed(restrict, n) && n in skills)
  }

  lemma InSeeded(skills: map<string, Folder>, image: map<string, Folder>, inline: map<string, string>, restrict: Option<set<string>>, n: string)
    ensures n in Seeded(skills, image, inline, restrict) <==> GotFolder(skills, image, inline, restrict, n)
  {
    hide SeededFolder;
  }

  lemma NameRight(skills: map<string, Folder>, image: map<string, Folder>, inline: map<string, string>, restrict: Option<set<string>>, n: string)
    ensures (GotFolder(skills, image, inline, restrict, n) <==> n in Wanted(image, inline, restrict))
       <==> (n in INHERITED ==>
              && (n in image && restrict.Some? && n !in restrict.value ==> n in inline)
              && (n in inline && n !in image ==> n in skills))
  {
  }

  /** A file of a folder, if both are there. */
  function Read(skills: map<string, Folder>, n: string, file: string): Option<string> {
    if n in skills && file in skills[n] then Some(skills[n][file]) else None
  }

  /** Every file of every folder afterwards: the image's files over what was there in a folder copied from it; SKILL.md as
      rendered in any other folder of a resolved skill, and never created empty; else what was there before. */
  lemma FilesAre(skills: map<string, Folder>, image: map<string, Folder>, inline: map<string, string>, restrict: Option<set<string>>,
      n: string, file: string)
    requires n in Seeded(skills, image, inline, restrict)
    ensures Read(Seeded(skills, image, inline, restrict), n, file)
         == if n in image && (restrict.None? || n in restrict.value || n in INHERITED)
            then if file in image[n] then Some(image[n][file]) else Read(skills, n, file)
            else if n in inline && n !in INHERITED && file == "SKILL.md"
            then if Read(skills, n, file).None? && inline[n] == "" then None else Some(inline[n])
            else Read(skills, n, file)
  {
  }

  /** On a name clash the image's files win, SKILL.md among them. */
  lemma ImageWins(skills: map<string, Folder>, image: map<string, Folder>, inline: map<string, string>, restrict: Option<set<string>>,
      n: string, file: string)
    requires n in image && Allowed(restrict, n) && file in image[n]
    ensures var seeded := Seeded(skills, image, inline, restrict);
            n in seeded && file in seeded[n] && seeded[n][file] == image[n][file]
  {
    hide Has;
    InSeeded(skills, image, inline, restrict, n);
  }

  /** A resolved skill the image does not bring reads as rendered, unless its name is inherited. */
  lemma InlineDelivered(skills: map<string, Folder>, image: map<string, Folder>, inline: map<string, string>, restrict: Option<set<string>>, n: string)
    requires n in inline && n !in Copied(image, restrict) && n !in INHERITED
    ensures var seeded := Seeded(skills, image, inline, restrict);
            n in seeded && (if SKILL_FILE in seeded[n] then seeded[n][SKILL_FILE] else "") == inline[n]
  {
    InSeeded(skills, image, inline, restrict, n);
  }

  /** A second seed changes nothing. */
  lemma SecondSeed(skills: map<string, Folder>, image: map<string, Folder>, inline: map<string, string>, restrict: Option<set<string>>)
    ensures var once := Seeded(skills, image, inline, restrict);
            Seeded(once, image, inline, restrict) == once
  {
    hide Seeded, Copied, Written, Kept, SeededFolder;
    var once := Seeded(skills, image, inline, restrict);
    var twice := Seeded(once, image, inline, restrict);
    forall n ensures (n in once <==> n in twice) && (n in once ==> once[n] == twice[n]) {
      KeptFolders(skills, image, inline, restrict, n);
      KeptFolders(once, image, inline, restrict, n);
      if n in once { SecondFolder(skills, once, image, inline, restrict, n); }
    }
  }

  lemma SecondFolder(skills: map<string, Folder>, once: map<string, Folder>, image: map<string, Folder>, inline: map<string, string>,
      restrict: Option<set<string>>, n: string)
    requires n in once && once[n] == SeededFolder(skills, image, inline, restrict, n)
    ensures SeededFolder(once, image, inline, restrict, n) == once[n]
  {
    hide Copied, Written;
    if n in Copied(image, restrict) {
      CopiedIn(image, restrict, n);
      assert FolderOf(skills, n) + image[n] + image[n] == FolderOf(skills, n) + image[n];
    }
  }

  lemma CopiedIn(image: map<string, Folder>, restrict: Option<set<string>>, n: string)
    requires n in Copied(image, restrict)
    ensures n in image
  {
  }
}

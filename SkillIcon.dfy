/** Skill icons: a skill name is normalised to a lookup key, the key picks a CDN
    logo or a local fallback image, dark logos are inverted, and a human-readable
    label is derived from the name with a character-for-character transform. */
module SkillIcon {
  import opened Text

  /** The CDN logos, keyed by normalised skill name. */
  const ExternalSkillSvgs: map<string, string> := map[
    "javascript" := "https://cdn.jsdelivr.net/gh/devicons/devicon/icons/javascript/javascript-original.svg",
    "typescript" := "https://cdn.jsdelivr.net/gh/devicons/devicon/icons/typescript/typescript-original.svg",
    "python" := "https://cdn.jsdelivr.net/gh/devicons/devicon/icons/python/python-original.svg",
    "java" := "https://cdn.jsdelivr.net/gh/devicons/devicon/icons/java/java-original.svg",
    "sql" := "https://www.svgrepo.com/download/303229/microsoft-sql-server-logo.svg",
    "html5" := "https://cdn.jsdelivr.net/gh/devicons/devicon/icons/html5/html5-original.svg",
    "css3" := "https://cdn.jsdelivr.net/gh/devicons/devicon/icons/css3/css3-original.svg",
    "git" := "https://cdn.jsdelivr.net/gh/devicons/devicon/icons/git/git-original.svg",
    "react" := "https://cdn.jsdelivr.net/gh/devicons/devicon/icons/react/react-original.svg",
    "angular" := "https://cdn.jsdelivr.net/gh/devicons/devicon/icons/angularjs/angularjs-original.svg",
    "tailwindcss" := "https://cdn.jsdelivr.net/gh/devicons/devicon/icons/tailwindcss/tailwindcss-plain.svg",
    "bootstrap" := "https://cdn.jsdelivr.net/gh/devicons/devicon/icons/bootstrap/bootstrap-plain.svg",
    "nodejs" := "https://cdn.jsdelivr.net/gh/devicons/devicon/icons/nodejs/nodejs-original.svg",
    "express" := "https://cdn.jsdelivr.net/gh/devicons/devicon/icons/express/express-original.svg",
    "django" := "https://cdn.jsdelivr.net/gh/devicons/devicon/icons/django/django-plain.svg",
    "flask" := "https://cdn.jsdelivr.net/gh/devicons/devicon/icons/flask/flask-original.svg",
    "graphql" := "https://cdn.jsdelivr.net/gh/devicons/devicon/icons/graphql/graphql-plain.svg",
    "swagger" := "https://cdn.jsdelivr.net/gh/devicons/devicon/icons/swagger/swagger-original.svg",
    "postman" := "https://cdn.jsdelivr.net/gh/devicons/devicon/icons/postman/postman-original.svg",
    "postgresql" := "https://cdn.jsdelivr.net/gh/devicons/devicon/icons/postgresql/postgresql-original.svg",
    "postgres" := "https://cdn.jsdelivr.net/gh/devicons/devicon/icons/postgresql/postgresql-original.svg",
    "mysql" := "https://cdn.jsdelivr.net/gh/devicons/devicon/icons/mysql/mysql-original.svg",
    "mongodb" := "https://cdn.jsdelivr.net/gh/devicons/devicon/icons/mongodb/mongodb-original.svg",
    "sqlite" := "https://cdn.jsdelivr.net/gh/devicons/devicon/icons/sqlite/sqlite-original.svg",
    "snowflake" := "https://cdn.worldvectorlogo.com/logos/snowflake.svg",
    "aws" := "https://cdn.jsdelivr.net/gh/devicons/devicon/icons/amazonwebservices/amazonwebservices-original.svg",
    "gcp" := "https://cdn.jsdelivr.net/gh/devicons/devicon/icons/googlecloud/googlecloud-original.svg",
    "docker" := "https://cdn.jsdelivr.net/gh/devicons/devicon/icons/docker/docker-original.svg",
    "jenkins" := "https://cdn.jsdelivr.net/gh/devicons/devicon/icons/jenkins/jenkins-original.svg",
    "nginx" := "https://cdn.jsdelivr.net/gh/devicons/devicon/icons/nginx/nginx-original.svg",
    "linux" := "https://cdn.jsdelivr.net/gh/devicons/devicon/icons/linux/linux-original.svg",
    "heroku" := "https://cdn.jsdelivr.net/gh/devicons/devicon/icons/heroku/heroku-original.svg",
    "netlify" := "https://cdn.jsdelivr.net/gh/devicons/devicon/icons/netlify/netlify-original.svg",
    "kafka" := "https://cdn.jsdelivr.net/gh/devicons/devicon/icons/apachekafka/apachekafka-original.svg",
    "githubactions" := "https://cdn.jsdelivr.net/gh/devicons/devicon/icons/githubactions/githubactions-original.svg",
    "github-actions" := "https://cdn.jsdelivr.net/gh/devicons/devicon/icons/githubactions/githubactions-original.svg",
    "cicd" := "https://www.svgrepo.com/download/354413/cicd.svg",
    "ci-cd" := "https://www.svgrepo.com/download/354413/cicd.svg",
    "jest" := "https://cdn.jsdelivr.net/gh/devicons/devicon/icons/jest/jest-plain.svg",
    "cypress" := "https://cdn.jsdelivr.net/gh/devicons/devicon/icons/cypressio/cypressio-original.svg",
    "cypressio" := "https://cdn.jsdelivr.net/gh/devicons/devicon/icons/cypressio/cypressio-original.svg",
    "pytest" := "https://cdn.jsdelivr.net/gh/devicons/devicon/icons/pytest/pytest-original.svg"
  ]

  /** Logos that are black and are inverted on the dark page. */
  const DarkIcons: set<string> := {"express", "jwt"}

  /** The skill names listed on the page, all groups together. */
  const Skills: seq<string> := [
    "javascript", "typescript", "python", "java", "sql", "nodejs", "vite", "figma",
    "react", "nextjs", "tailwindcss", "graphql", "django", "flask", "nest", "angular",
    "postgresql", "snowflake", "mysql", "mongodb",
    "git", "docker", "aws", "kafka", "ci/cd"
  ]

  /** `name || ""` for a name that is a string or missing. */
  function OrEmpty(name: Option<string>): string
  {
    if name.Some? then name.value else ""
  }

  /** `String(name || "").toLowerCase().trim()`; a missing or empty name gives "". */
  function Key(name: Option<string>): (key: string)
    ensures name.None? ==> key == ""
    ensures name.Some? ==> key == Trim(Lower(name.value))
    ensures NoUpper(key)
    ensures |key| > 0 ==> !IsJsWhitespace(key[0]) && !IsJsWhitespace(key[|key| - 1])
  {
    var s := OrEmpty(name);
    LowerNoUpper(s);
    TrimNoUpper(Lower(s));
    Trim(Lower(s))
  }

  predicate NoUpper(s: string)
  {
    forall i :: 0 <= i < |s| ==> !('A' <= s[i] <= 'Z')
  }

  lemma LowerNoUpper(s: string)
    ensures NoUpper(Lower(s))
  {
  }

  lemma TrimNoUpper(s: string)
    requires NoUpper(s)
    ensures NoUpper(Trim(s))
  {
    var t := TrimStart(s);
    SliceNoUpper(s, |s| - |t|, |s|);
    SliceNoUpper(t, 0, |TrimEnd(t)|);
  }

  lemma SliceNoUpper(s: string, i: nat, j: nat)
    requires NoUpper(s) && i <= j <= |s|
    ensures NoUpper(s[i..j])
  {
    assert forall k :: 0 <= k < j - i ==> s[i..j][k] == s[i + k];
  }

  /** Normalising a key again changes nothing. */
  lemma KeyIdempotent(name: Option<string>)
    ensures Key(Some(Key(name))) == Key(name)
  {
    var k := Key(name);
    assert Lower(k) == k;
    TrimIdempotent(k);
  }

  /** Where the image comes from. `PrototypeMember` is what a plain-object lookup
      returns for a key that names an inherited member of every object. */
  datatype IconSrc = Cdn(url: string) | Local(path: string) | PrototypeMember(member: string)

  /** The fallback image: the key between the "/skills/" folder and the ".svg"
      extension. */
  function LocalPath(key: string): (path: string)
    ensures |path| == |key| + 12
    ensures path[..8] == "/skills/" && path[8..|path| - 4] == key && path[|path| - 4..] == ".svg"
  {
    "/skills/" + key + ".svg"
  }

  /** The icon source, with the table read as a dictionary of its own entries: a
      table URL when the key is listed, the local image otherwise. */
  function IconSource(key: string): (src: IconSrc)
    ensures src.Cdn? <==> key in ExternalSkillSvgs
    ensures src.Cdn? ==> src.url == ExternalSkillSvgs[key]
    ensures src.Local? <==> key !in ExternalSkillSvgs
    ensures src.Local? ==> src.path == LocalPath(key)
  {
    if key in ExternalSkillSvgs then Cdn(ExternalSkillSvgs[key]) else Local(LocalPath(key))
  }

  /** The lower-case names of the members every JavaScript object inherits from
      Object.prototype; the other inherited members have upper-case letters, which
      a normalised key never has. */
  const ObjectPrototypeMembers: set<string> := {"constructor", "__proto__"}

  /** `EXTERNAL_SKILL_SVGS[key]` and the truthiness test as the component writes
      them: a plain-object lookup also finds the inherited members, which are truthy,
      so the CDN branch is taken with a non-URL value. */
  function IconSourceAsWritten(key: string): IconSrc
  {
    if key in ExternalSkillSvgs then Cdn(ExternalSkillSvgs[key])
    else if key in ObjectPrototypeMembers then PrototypeMember(key)
    else Local(LocalPath(key))
  }

  /** A name that is already lower-case and trimmed is its own key. */
  lemma KeyOfNormalName(n: string)
    requires NoUpper(n)
    requires |n| > 0 ==> !IsJsWhitespace(n[0]) && !IsJsWhitespace(n[|n| - 1])
    ensures Key(Some(n)) == n
  {
    assert Lower(n) == n;
    TrimIdempotent(n);
  }

  /** The key "constructor" (the key of the skill name "constructor", by
      KeyOfNormalName) gets no local fallback image as written. */
  lemma ConstructorKeyAsWritten()
    ensures IconSourceAsWritten("constructor") == PrototypeMember("constructor")
    ensures IconSource("constructor") == Local("/skills/constructor.svg")
  {
    ConstructorNotInTable();
    ConstructorPath();
  }

  lemma ConstructorPath()
    ensures LocalPath("constructor") == "/skills/constructor.svg"
  {
  }

  lemma ConstructorNotInTable()
    ensures "constructor" !in ExternalSkillSvgs
  {
  }

  /** The own-entry lookup agrees with the written one on every other key. */
  lemma AsWrittenAgreesElsewhere(key: string)
    requires key !in ObjectPrototypeMembers
    ensures IconSourceAsWritten(key) == IconSource(key)
  {
  }

  predicate IsWordChar(c: char)
  {
    ('A' <= c <= 'Z') || ('a' <= c <= 'z') || ('0' <= c <= '9') || c == '_'
  }

  function DashToSpace(c: char): char
  {
    if c == '-' || c == '_' then ' ' else c
  }

  /** `.replace(/[-_]/g, " ")`. */
  function SpaceDashes(s: string): (r: string)
    ensures |r| == |s|
    ensures forall i :: 0 <= i < |s| ==> r[i] == DashToSpace(s[i])
  {
    seq(|s|, i requires 0 <= i < |s| => DashToSpace(s[i]))
  }

  /** `.replace(/\b\w/g, c => c.toUpperCase())`, scanning left to right;
      `afterWord` says whether the character before `s` is a word character. */
  function CapitalizeWords(s: string, afterWord: bool): (r: string)
    ensures |r| == |s|
    ensures forall i :: 0 <= i < |s| && !IsWordChar(s[i]) ==> r[i] == s[i]
  {
    if |s| == 0 then ""
    else [if IsWordChar(s[0]) && !afterWord then UpperChar(s[0]) else s[0]]
         + CapitalizeWords(s[1..], IsWordChar(s[0]))
  }

  /** Position `i` of `s` holds a word character right after a word boundary. */
  predicate StartsWord(s: string, i: nat)
    requires i < |s|
  {
    IsWordChar(s[i]) && (i == 0 || !IsWordChar(s[i - 1]))
  }

  /** `humanize`, and the inline label code, which is the same transform. */
  function Humanize(name: string): (r: string)
    ensures |r| == |name|
    ensures forall i :: 0 <= i < |name| && (name[i] == '-' || name[i] == '_') ==> r[i] == ' '
  {
    CapitalizeWords(SpaceDashes(name), false)
  }

  /** The character `CapitalizeWords(s, afterWord)` puts at position `i`. */
  function CapitalizedAt(s: string, afterWord: bool, i: nat): char
    requires i < |s|
  {
    var boundary := if i == 0 then !afterWord else !IsWordChar(s[i - 1]);
    if IsWordChar(s[i]) && boundary then UpperChar(s[i]) else s[i]
  }

  lemma {:induction false} CapitalizeWordsAt(s: string, afterWord: bool)
    ensures |CapitalizeWords(s, afterWord)| == |s|
    ensures forall i :: 0 <= i < |s| ==> CapitalizeWords(s, afterWord)[i] == CapitalizedAt(s, afterWord, i)
  {
    if |s| > 0 {
      var t := s[1..];
      CapitalizeWordsAt(t, IsWordChar(s[0]));
      forall i | 1 <= i < |s|
        ensures CapitalizeWords(s, afterWord)[i] == CapitalizedAt(s, afterWord, i)
      {
        assert CapitalizeWords(s, afterWord)[i] == CapitalizeWords(t, IsWordChar(s[0]))[i - 1];
        assert t[i - 1] == s[i];
        if i > 1 {
          assert t[i - 2] == s[i - 1];
        }
      }
    }
  }

  /** The label keeps the name's length: each `-` or `_` becomes a space, each
      word character after a word boundary is upper-cased, and every other
      character stays as it is. */
  lemma HumanizeAt(name: string)
    ensures |Humanize(name)| == |name|
    ensures forall i :: 0 <= i < |name| ==>
              Humanize(name)[i] == if StartsWord(SpaceDashes(name), i)
                                   then UpperChar(DashToSpace(name[i])) else DashToSpace(name[i])
    ensures forall i :: 0 <= i < |name| && (name[i] == '-' || name[i] == '_') ==> Humanize(name)[i] == ' '
  {
    var sd := SpaceDashes(name);
    CapitalizeWordsAt(sd, false);
    forall i | 0 <= i < |name|
      ensures Humanize(name)[i] == if StartsWord(sd, i) then UpperChar(DashToSpace(name[i])) else DashToSpace(name[i])
    {
      assert Humanize(name)[i] == CapitalizedAt(sd, false, i);
      assert sd[i] == DashToSpace(name[i]);
    }
  }

  /** `(name || key || "")` with the transform applied: built from the name itself,
      so neither lower-cased nor trimmed. */
  function Label(name: Option<string>): (shown: string)
    ensures name.None? ==> shown == ""
    ensures name.Some? ==> |shown| == |name.value|
  {
    Humanize(OrEmpty(name))
  }

  /** What the component renders for one skill. */
  datatype Icon = Icon(src: IconSrc, alt: string, ariaLabel: string, tip: string, inverted: bool)

  function SkillIcon(name: Option<string>): (icon: Icon)
    ensures icon.alt == Label(name) && icon.ariaLabel == Label(name) && icon.tip == Label(name)
    ensures name.Some? ==> |icon.alt| == |name.value|
    ensures icon.inverted <==> Key(name) in DarkIcons
    ensures icon.src.Cdn? <==> Key(name) in ExternalSkillSvgs
    ensures icon.src.Local? <==> Key(name) !in ExternalSkillSvgs
    ensures icon.src.Cdn? ==> icon.src.url == ExternalSkillSvgs[Key(name)]
    ensures icon.src.Local? ==> icon.src.path == LocalPath(Key(name))
  {
    var key := Key(name);
    var shown := Label(name);
    HumanizeAt(OrEmpty(name));
    Icon(IconSource(key), shown, shown, shown, key in DarkIcons)
  }

  /** The label is built from the name, not the key: upper-case letters and white
      space of the name survive in it, so it is neither lower-cased nor trimmed. */
  lemma LabelKeepsCaseAndSpacing(n: string)
    ensures |Label(Some(n))| == |n|
    ensures forall i :: 0 <= i < |n| && ('A' <= n[i] <= 'Z' || IsJsWhitespace(n[i])) ==> Label(Some(n))[i] == n[i]
  {
    HumanizeAt(n);
  }

  /** The skill "ci/cd", the last one listed, is its own key. */
  lemma CiCdKey()
    ensures Skills[24] == "ci/cd"
    ensures Key(Some(Skills[24])) == Skills[24]
  {
    KeyOfNormalName("ci/cd");
  }

  /** "ci/cd" is not in the table (only "cicd" and "ci-cd" are), so it falls back to
      a local path with a slash in it. */
  lemma CiCdFallsBack()
    ensures SkillIcon(Some("ci/cd")).src == Local("/skills/ci/cd.svg")
  {
    CiCdKey();
    CiCdNotInTable();
    CiCdPath();
  }

  lemma CiCdNotInTable()
    ensures "ci/cd" !in ExternalSkillSvgs
  {
  }

  lemma CiCdPath()
    ensures LocalPath("ci/cd") == "/skills/ci/cd.svg"
  {
  }
}

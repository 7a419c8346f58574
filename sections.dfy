/** `prepare_resume_sections` in backend/api/helpers.py: a profile document
    becomes the summary section, then one section per work experience, then
    one per project, each with the prompt sent to the generation service. */
module ResumeSections {
  import opened Wrappers
  import opened Strings

  /** A text column as the profile document holds it: the key is absent,
      holds `null` (a NULL column; the query always writes the key), or
      holds a string. */
  datatype Field = Absent | Null | Text(text: string)

  /** The parts of the profile document the sections read. A `userProfile`
      that is absent is `None`; a list that is absent, `null` or empty is
      `[]`. */
  datatype Profile = Profile(bio: Field, introduction: Field)
  datatype Experience = Experience(companyName: Field, role: Field, description: Field)
  datatype Project = Project(name: Field, description: Field)
  datatype UserDetails = UserDetails(userProfile: Option<Profile>, experiences: seq<Experience>, projects: seq<Project>)

  /** `.get(key, '')`: the Python value read, `None` standing for Python's
      `None`. The default applies only to an absent key, so a `null` is
      read as `None`. */
  function Get(f: Field): (v: Option<string>)
    ensures v.None? <==> f.Null?
    ensures f.Absent? ==> v == Some("")
    ensures f.Text? ==> v == Some(f.text)
  {
    match f
    case Absent => Some("")
    case Null => None
    case Text(t) => Some(t)
  }

  /** A value as an f-string renders it: `None` becomes the text "None". */
  function Shown(v: Option<string>): string
  {
    match v
    case Some(t) => t
    case None => "None"
  }

  /** The `data` entry of a section; `None` is Python's `None`. */
  datatype SectionData =
    | SummaryData(bio: Option<string>, introduction: Option<string>, jobDescription: string)
    | ExperienceData(experience: Experience, index: nat, companyName: Option<string>)
    | ProjectData(project: Project, index: nat, projectName: Option<string>)

  /** The fields a prompt is filled in with; `PromptText` renders it. */
  datatype Prompt =
    | SummaryPrompt(job: string, bio: string, introduction: string)
    | ExperiencePrompt(job: string, company: string, role: string, description: string)
    | ProjectPrompt(job: string, name: string, description: string)

  datatype Section = Section(section: string, title: string, data: SectionData, prompt: Prompt)

  /** The summary prompt up to the job description. */
  const SummaryLead: string :=
    "IMPORTANT: Use ONLY the user's bio and introduction provided below. Do NOT create or invent any information.\n"
    + "\nJob Description:\n"

  /** Between the job description and the bio. */
  const SummaryBioLabel: string :=
    "\n\nUser's Bio:\n"

  /** Between the bio and the introduction. */
  const SummaryIntroLabel: string :=
    "\n\nUser's Introduction:\n"

  /** After the introduction. */
  const SummaryTask: string :=
    "\n\nTask: Create a professional summary by combining the user's bio and introduction.\n"
    + "\nREQUIREMENTS:\n"
    + "- Combine the user's bio and introduction into a short professional summary\n"
    + "- Maximum 3 lines only\n"
    + "- Reword the combined bio/introduction to align with the job description's requirements and terminology\n"
    + "- Use keywords and language from the job description while maintaining the user's actual background\n"
    + "- Keep it concise and impactful (max 3 lines)\n"
    + "- Do NOT add any information that is not in the provided bio or introduction\n"
    + "- Output ONLY the summary text, no headings or extra formatting"

  /** The experience prompt up to the job description. */
  const ExperienceLead: string :=
    "IMPORTANT: Generate ONLY the description for this work experience. Do NOT include company name, job title, location, dates, or technologies.\n"
    + "\nJob Description:\n"

  /** Between the job description and the company name. */
  const ExperienceCompanyLabel: string :=
    "\n\nWork Experience Details:\n"
    + "Company: "

  /** Between the company name and the role. */
  const ExperienceRoleLabel: string :=
    "\nRole: "

  /** Between the role and the original description. */
  const ExperienceDescriptionLabel: string :=
    "\nOriginal Description: "

  /** After the original description. */
  const ExperienceTask: string :=
    "\n\nTask: Generate a professional description for this work experience that aligns with the job description.\n"
    + "\nREQUIREMENTS:\n"
    + "- Maintain similar level of detail as the original description\n"
    + "- Use keywords and terminology from the job description\n"
    + "- Generate response in new lines with one point per line\n"
    + "- Output must be in separate lines (newline-separated: \n"
    + "), NOT bullet points.\n"
    + "- Each point should be NOT more than 2 lines (not in one paragraph)\n"
    + "- Format: Each point on a new line, where each point is maximum 2 lines long\n"
    + "- Do NOT include company name, job title, location, dates, or technologies\n"
    + "- Do NOT create or invent any experiences\n"
    + "- Do NOT create or invent any information not in the original description\n"
    + "- Output ONLY the description points, one per line, nothing else"

  /** The project prompt up to the job description. */
  const ProjectLead: string :=
    "CRITICAL: Generate ONLY the description for this project. Do NOT include project name, technologies, links, or dates.\n"
    + "\nJob Description:\n"

  /** Between the job description and the project name. */
  const ProjectNameLabel: string :=
    "\n\nProject Details:\n"
    + "Name: "

  /** Between the project name and the original description. */
  const ProjectDescriptionLabel: string :=
    "\nOriginal Description: "

  /** After the original description. */
  const ProjectTask: string :=
    "\n\nTask: Generate a professional description for this project that aligns with the job description.\n"
    + "\nREQUIREMENTS:\n"
    + "- Maintain similar level of detail as the original description\n"
    + "- Keep the SAME structure, format, and length for each project entry\n"
    + "- Keep the EXACT project names, dates, categories, and links unchanged\n"
    + "- ONLY modify:\n"
    + "  * Technologies mentioned - replace with job description terminology where applicable\n"
    + "  * Keywords and wordings in descriptions - align with job description language\n"
    + "  * Project descriptions - use job description terminology while maintaining actual project details\n"
    + "- Maintain the same level of detail and number of bullet points as the original\n"
    + "- Use what the user data has stored - just change words, tech, and keywords to match job description\n"
    + "- Do NOT add or remove projects\n"
    + "- Do NOT change the structure or format\n"
    + "- Do NOT create, invent, or generate any projects that are not in the user's actual project list\n"
    + "- Output must be in separate lines (newline-separated: \n"
    + "), NOT bullet points.\n"
    + "- Generate response in new lines with one point per line\n"
    + "- Each point should be NOT more than 2 lines (not in one paragraph)\n"
    + "- Format: Each point on a new line, where each point is maximum 2 lines long\n"
    + "- Do NOT include project name, technologies, links, or dates\n"
    + "- Output ONLY the description points, one per line, nothing else"

  /** The fixed text around the fields of each kind of prompt. */
  datatype Templates = Templates(
    summaryLead: string, summaryBio: string, summaryIntro: string, summaryTask: string,
    experienceLead: string, experienceCompany: string, experienceRole: string,
    experienceDescription: string, experienceTask: string,
    projectLead: string, projectName: string, projectDescription: string, projectTask: string)

  /** The texts of the three f-strings. */
  const SourceTemplates: Templates :=
    Templates(SummaryLead, SummaryBioLabel, SummaryIntroLabel, SummaryTask,
              ExperienceLead, ExperienceCompanyLabel, ExperienceRoleLabel, ExperienceDescriptionLabel,
              ExperienceTask, ProjectLead, ProjectNameLabel, ProjectDescriptionLabel, ProjectTask)

  /** The f-string of each kind of section, filled in; the prompt sent is
      `PromptText(SourceTemplates, section.prompt)`. */
  function PromptText(t: Templates, p: Prompt): string
  {
    match p
    case SummaryPrompt(job, bio, intro) =>
      t.summaryLead + job + (t.summaryBio + bio + t.summaryIntro + intro + t.summaryTask)
    case ExperiencePrompt(job, company, role, description) =>
      t.experienceLead + job + (t.experienceCompany + company + t.experienceRole + role
                                + t.experienceDescription + description + t.experienceTask)
    case ProjectPrompt(job, name, description) =>
      t.projectLead + job + (t.projectName + name + t.projectDescription + description + t.projectTask)
  }

  function SummarySection(profile: Option<Profile>, job: string): (s: Section)
    ensures s.section == "summary" && s.title == "Professional Summary"
  {
    var p := profile.GetOr(Profile(Absent, Absent));
    var bio := Get(p.bio);
    var intro := Get(p.introduction);
    Section("summary", "Professional Summary", SummaryData(bio, intro, job),
            SummaryPrompt(job, Shown(bio), Shown(intro)))
  }

  /** The section of the experience at 0-based position `idx`. */
  function ExperienceSection(e: Experience, idx: nat, job: string): Section
  {
    var company := Get(e.companyName);
    Section("experience", "Work Experience " + NatToString(idx + 1), ExperienceData(e, idx, company),
            ExperiencePrompt(job, Shown(company), Shown(Get(e.role)), Shown(Get(e.description))))
  }

  /** The section of the project at 0-based position `idx`. */
  function ProjectSection(p: Project, idx: nat, job: string): Section
  {
    var name := Get(p.name);
    Section("project", "Project " + NatToString(idx + 1), ProjectData(p, idx, name),
            ProjectPrompt(job, Shown(name), Shown(Get(p.description))))
  }

  function ExperienceSections(es: seq<Experience>, job: string): (ss: seq<Section>)
    ensures |ss| == |es|
  {
    seq(|es|, k requires 0 <= k < |es| => ExperienceSection(es[k], k, job))
  }

  function ProjectSections(ps: seq<Project>, job: string): (ss: seq<Section>)
    ensures |ss| == |ps|
  {
    seq(|ps|, k requires 0 <= k < |ps| => ProjectSection(ps[k], k, job))
  }

  /** All the sections, in the order they are generated. */
  function Sections(details: UserDetails, job: string): seq<Section>
  {
    [SummarySection(details.userProfile, job)]
    + ExperienceSections(details.experiences, job) + ProjectSections(details.projects, job)
  }

  /** `prepare_resume_sections(user_details, prompt, job_description)`: the
      two loops append one section per experience and per project. The
      `prompt` argument is never read, so the result is the same for every
      `prompt`. */
  method PrepareResumeSections(details: UserDetails, prompt: string, job: string) returns (sections: seq<Section>)
    ensures sections == Sections(details, job)
  {
    sections := [SummarySection(details.userProfile, job)];
    var head := sections;
    var es := details.experiences;
    for idx := 0 to |es|
      invariant sections == head + ExperienceSections(es[..idx], job)
    {
      assert ExperienceSections(es[..idx + 1], job)
             == ExperienceSections(es[..idx], job) + [ExperienceSection(es[idx], idx, job)];
      sections := sections + [ExperienceSection(es[idx], idx, job)];
    }
    assert es[..|es|] == es;
    head := sections;
    var ps := details.projects;
    for idx := 0 to |ps|
      invariant sections == head + ProjectSections(ps[..idx], job)
    {
      assert ProjectSections(ps[..idx + 1], job)
             == ProjectSections(ps[..idx], job) + [ProjectSection(ps[idx], idx, job)];
      sections := sections + [ProjectSection(ps[idx], idx, job)];
    }
    assert ps[..|ps|] == ps;
  }

  // Properties of the sections.

  /** One summary, then one section per experience and one per project. */
  lemma SectionCount(details: UserDetails, job: string)
    ensures |Sections(details, job)| == 1 + |details.experiences| + |details.projects|
  {
  }

  /** The summary comes first, whatever the lists hold. Its data carries
      the bio and the introduction as read ("" when the key is absent,
      `None` when it holds `null`), and its prompt shows them, `None` as
      the text "None". */
  lemma SummaryFirst(details: UserDetails, job: string)
    ensures var s := Sections(details, job)[0];
      var p := details.userProfile.GetOr(Profile(Absent, Absent));
      && s.section == "summary" && s.title == "Professional Summary"
      && s.data == SummaryData(Get(p.bio), Get(p.introduction), job)
      && s.prompt == SummaryPrompt(job, Shown(Get(p.bio)), Shown(Get(p.introduction)))
  {
  }

  /** The section at position `1 + k` is the `k`-th experience, titled with
      `k + 1`, indexed with `k` and naming its company as read; its prompt
      shows the company, the role and the description. */
  lemma ExperienceAt(details: UserDetails, job: string, k: nat)
    requires k < |details.experiences|
    ensures var s := Sections(details, job)[1 + k];
      var e := details.experiences[k];
      && s.section == "experience" && s.title == "Work Experience " + NatToString(k + 1)
      && s.data == ExperienceData(e, k, Get(e.companyName))
      && s.prompt == ExperiencePrompt(job, Shown(Get(e.companyName)), Shown(Get(e.role)), Shown(Get(e.description)))
  {
  }

  /** The section at position `1 + |experiences| + k` is the `k`-th project,
      naming the project as read; its prompt shows the name and the
      description. */
  lemma ProjectAt(details: UserDetails, job: string, k: nat)
    requires k < |details.projects|
    ensures var s := Sections(details, job)[1 + |details.experiences| + k];
      var p := details.projects[k];
      && s.section == "project" && s.title == "Project " + NatToString(k + 1)
      && s.data == ProjectData(p, k, Get(p.name))
      && s.prompt == ProjectPrompt(job, Shown(Get(p.name)), Shown(Get(p.description)))
  {
  }

  /** A NULL column is not defaulted: the prompt says "None" where the
      value goes and the data holds `None`; only an absent key gives "". */
  lemma NullShownAsNone(e: Experience, idx: nat, job: string)
    ensures var s := ExperienceSection(e, idx, job);
      && (e.companyName.Null? <==> s.data.companyName.None?)
      && (e.companyName.Null? ==> s.prompt.company == "None")
      && (e.companyName.Absent? ==> s.prompt.company == "" && s.data.companyName == Some(""))
      && (e.role.Null? ==> s.prompt.role == "None")
      && (e.description.Null? ==> s.prompt.description == "None")
  {
  }

  /** The kinds come in the order summary, experiences, projects. */
  lemma SectionOrder(details: UserDetails, job: string, i: nat)
    requires i < |Sections(details, job)|
    ensures var s := Sections(details, job)[i];
      && (s.section == "summary" <==> i == 0)
      && (s.section == "experience" <==> 1 <= i <= |details.experiences|)
      && (s.section == "project" <==> i > |details.experiences|)
  {
    var n := |details.experiences|;
    if i > 0 && i <= n {
      ExperienceAt(details, job, i - 1);
    } else if i > n {
      ProjectAt(details, job, i - 1 - n);
    }
  }

  /** Every prompt holds the job description verbatim, whatever the
      fixed text around it. */
  lemma JobInEveryPrompt(t: Templates, details: UserDetails, job: string, i: nat)
    requires i < |Sections(details, job)|
    ensures Contains(PromptText(t, Sections(details, job)[i].prompt), job)
  {
    var n := |details.experiences|;
    if i == 0 {
      SummaryFirst(details, job);
    } else if i <= n {
      ExperienceAt(details, job, i - 1);
    } else {
      ProjectAt(details, job, i - 1 - n);
    }
    PromptHoldsJob(t, Sections(details, job)[i].prompt);
  }

  lemma PromptHoldsJob(t: Templates, p: Prompt)
    ensures Contains(PromptText(t, p), p.job)
  {
    match p
    case SummaryPrompt(job, bio, intro) =>
      ContainsMiddle(t.summaryLead, job, t.summaryBio + bio + t.summaryIntro + intro + t.summaryTask);
    case ExperiencePrompt(job, company, role, description) =>
      ContainsMiddle(t.experienceLead, job, t.experienceCompany + company + t.experienceRole + role
                                            + t.experienceDescription + description + t.experienceTask);
    case ProjectPrompt(job, name, description) =>
      ContainsMiddle(t.projectLead, job, t.projectName + name + t.projectDescription + description + t.projectTask);
  }
}

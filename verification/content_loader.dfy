/** The memoising content loader: the bundled document is validated on the
    first successful call and the validated value is kept for every later call. */
module ContentLoader {
  import opened Wrappers
  import opened Schema

  /** The error thrown when validation fails; zod's own error is only logged. */
  datatype LoadError = InvalidContent(message: string)

  const InvalidContentMessage: string := "Invalid portfolio content structure. Please check portfolio-content.json"

  class Loader {
    /** The bundled JSON document. */
    const portfolioData: PortfolioContent
    /** zod's e-mail check, which the model does not spell out. */
    const isEmail: string -> bool
    /** The module-level `cachedContent` slot; `None` is `null`. */
    var cachedContent: Option<PortfolioContent>
    /** How many times the schema has been run. */
    ghost var validations: nat

    /** The cache only ever holds the validated document. */
    ghost predicate Valid()
      reads this
    {
      cachedContent.Some? ==> cachedContent.value == portfolioData && ValidPortfolio(portfolioData, isEmail)
    }

    constructor (data: PortfolioContent, emailCheck: string -> bool)
      ensures Valid()
      ensures portfolioData == data && isEmail == emailCheck
      ensures cachedContent == None && validations == 0
    {
      portfolioData := data;
      isEmail := emailCheck;
      cachedContent := None;
      validations := 0;
    }

    /** `getPortfolioContent`: the cached value if there is one, otherwise
        validate, fill the cache on success, and fail (cache still empty) otherwise. */
    method GetPortfolioContent() returns (r: Result<PortfolioContent, LoadError>)
      requires Valid()
      modifies this`cachedContent, this`validations
      ensures Valid()
      ensures old(cachedContent).Some? ==> r == Success(old(cachedContent).value) && validations == old(validations)
      ensures old(cachedContent).None? ==> validations == old(validations) + 1
      ensures r.Success? <==> ValidPortfolio(portfolioData, isEmail)
      ensures r.Success? ==> r.value == portfolioData
      ensures r.Failure? ==> r.error == InvalidContent(InvalidContentMessage)
      ensures cachedContent == if r.Success? then Some(portfolioData) else None
    {
      if cachedContent.Some? {
        return Success(cachedContent.value);
      }
      validations := validations + 1;
      var parsed := Parse(portfolioData, isEmail);
      match parsed {
        case Success(validated) =>
          cachedContent := Some(validated);
          r := Success(validated);
        case Failure(_) =>
          r := Failure(InvalidContent(InvalidContentMessage));
      }
    }

    method GetPersonalInfo() returns (r: Result<PersonalInfo, LoadError>)
      requires Valid()
      modifies this`cachedContent, this`validations
      ensures Valid()
      ensures r.Success? <==> ValidPortfolio(portfolioData, isEmail)
      ensures r.Success? ==> r.value == portfolioData.personal
      ensures r.Failure? ==> r.error == InvalidContent(InvalidContentMessage)
      ensures old(cachedContent).Some? ==> validations == old(validations)
      ensures cachedContent == if r.Success? then Some(portfolioData) else None
    {
      var content := GetPortfolioContent();
      r := if content.Success? then Success(content.value.personal) else Failure(content.error);
    }

    method GetHeroContent() returns (r: Result<HeroSection, LoadError>)
      requires Valid()
      modifies this`cachedContent, this`validations
      ensures Valid()
      ensures r.Success? <==> ValidPortfolio(portfolioData, isEmail)
      ensures r.Success? ==> r.value == portfolioData.hero
      ensures r.Failure? ==> r.error == InvalidContent(InvalidContentMessage)
      ensures old(cachedContent).Some? ==> validations == old(validations)
      ensures cachedContent == if r.Success? then Some(portfolioData) else None
    {
      var content := GetPortfolioContent();
      r := if content.Success? then Success(content.value.hero) else Failure(content.error);
    }

    method GetAboutContent() returns (r: Result<AboutSection, LoadError>)
      requires Valid()
      modifies this`cachedContent, this`validations
      ensures Valid()
      ensures r.Success? <==> ValidPortfolio(portfolioData, isEmail)
      ensures r.Success? ==> r.value == portfolioData.about
      ensures r.Failure? ==> r.error == InvalidContent(InvalidContentMessage)
      ensures old(cachedContent).Some? ==> validations == old(validations)
      ensures cachedContent == if r.Success? then Some(portfolioData) else None
    {
      var content := GetPortfolioContent();
      r := if content.Success? then Success(content.value.about) else Failure(content.error);
    }

    method GetSkillsContent() returns (r: Result<SkillsSection, LoadError>)
      requires Valid()
      modifies this`cachedContent, this`validations
      ensures Valid()
      ensures r.Success? <==> ValidPortfolio(portfolioData, isEmail)
      ensures r.Success? ==> r.value == portfolioData.skills
      ensures r.Failure? ==> r.error == InvalidContent(InvalidContentMessage)
      ensures old(cachedContent).Some? ==> validations == old(validations)
      ensures cachedContent == if r.Success? then Some(portfolioData) else None
    {
      var content := GetPortfolioContent();
      r := if content.Success? then Success(content.value.skills) else Failure(content.error);
    }

    method GetExperienceContent() returns (r: Result<ExperienceSection, LoadError>)
      requires Valid()
      modifies this`cachedContent, this`validations
      ensures Valid()
      ensures r.Success? <==> ValidPortfolio(portfolioData, isEmail)
      ensures r.Success? ==> r.value == portfolioData.experience
      ensures r.Failure? ==> r.error == InvalidContent(InvalidContentMessage)
      ensures old(cachedContent).Some? ==> validations == old(validations)
      ensures cachedContent == if r.Success? then Some(portfolioData) else None
    {
      var content := GetPortfolioContent();
      r := if content.Success? then Success(content.value.experience) else Failure(content.error);
    }

    method GetProjectsContent() returns (r: Result<ProjectsSection, LoadError>)
      requires Valid()
      modifies this`cachedContent, this`validations
      ensures Valid()
      ensures r.Success? <==> ValidPortfolio(portfolioData, isEmail)
      ensures r.Success? ==> r.value == portfolioData.projects
      ensures r.Failure? ==> r.error == InvalidContent(InvalidContentMessage)
      ensures old(cachedContent).Some? ==> validations == old(validations)
      ensures cachedContent == if r.Success? then Some(portfolioData) else None
    {
      var content := GetPortfolioContent();
      r := if content.Success? then Success(content.value.projects) else Failure(content.error);
    }

    method GetCertificationsContent() returns (r: Result<CertificationsSection, LoadError>)
      requires Valid()
      modifies this`cachedContent, this`validations
      ensures Valid()
      ensures r.Success? <==> ValidPortfolio(portfolioData, isEmail)
      ensures r.Success? ==> r.value == portfolioData.certifications
      ensures r.Failure? ==> r.error == InvalidContent(InvalidContentMessage)
      ensures old(cachedContent).Some? ==> validations == old(validations)
      ensures cachedContent == if r.Success? then Some(portfolioData) else None
    {
      var content := GetPortfolioContent();
      r := if content.Success? then Success(content.value.certifications) else Failure(content.error);
    }

    method GetContactContent() returns (r: Result<ContactSection, LoadError>)
      requires Valid()
      modifies this`cachedContent, this`validations
      ensures Valid()
      ensures r.Success? <==> ValidPortfolio(portfolioData, isEmail)
      ensures r.Success? ==> r.value == portfolioData.contact
      ensures r.Failure? ==> r.error == InvalidContent(InvalidContentMessage)
      ensures old(cachedContent).Some? ==> validations == old(validations)
      ensures cachedContent == if r.Success? then Some(portfolioData) else None
    {
      var content := GetPortfolioContent();
      r := if content.Success? then Success(content.value.contact) else Failure(content.error);
    }
  }

  /** A valid document is validated once, however often it is asked for. */
  method ValidatesOnce(data: PortfolioContent, emailCheck: string -> bool)
    returns (first: Result<PortfolioContent, LoadError>, second: Result<HeroSection, LoadError>)
    ensures first.Success? ==> first.value == data && second == Success(data.hero)
  {
    var loader := new Loader(data, emailCheck);
    first := loader.GetPortfolioContent();
    second := loader.GetHeroContent();
    assert first.Success? ==> loader.validations == 1;
  }

  /** A failed load leaves the cache empty, so the next call validates again
      and fails the same way. */
  method RetriesAfterFailure(data: PortfolioContent, emailCheck: string -> bool)
    returns (first: Result<PortfolioContent, LoadError>, second: Result<PortfolioContent, LoadError>)
    ensures first.Failure? ==> second == first
  {
    var loader := new Loader(data, emailCheck);
    first := loader.GetPortfolioContent();
    second := loader.GetPortfolioContent();
    assert first.Failure? ==> loader.validations == 2;
  }
}

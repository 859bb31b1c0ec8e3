/** The "Start New Interview" form (`NewChatModal`): the user picks one of
    three interview durations and either pastes a custom article URL or
    clicks a curated article; either way the parent's `onLoadBlog` callback
    receives a title, a URL and the chosen duration, and the form asks to be
    closed. The callbacks are modelled as the values a method returns. */
module NewChat {

  import opened Wrappers
  import opened Text

  datatype TimerOption = TimerOption(value: int, caption: string)

  /** `timerOptions`: durations in seconds with their button labels. */
  const TimerOptions: seq<TimerOption> := [
    TimerOption(300, "5 minutes"),
    TimerOption(600, "10 minutes"),
    TimerOption(900, "15 minutes")
  ]

  const DefaultDuration: int := 600
  const CustomBlogTitle: string := "Custom Blog"

  /** `PreselectedArticle` of app/types/types.ts. */
  datatype Article = Article(id: string, title: string, url: string, description: string)

  /** The arguments of one `onLoadBlog(title, url, duration)` call. */
  datatype BlogChoice = BlogChoice(title: string, url: string, duration: int)

  ghost predicate IsOption(d: int) {
    exists i :: 0 <= i < |TimerOptions| && TimerOptions[i].value == d
  }

  lemma OptionValues(d: int)
    ensures IsOption(d) <==> d in {300, 600, 900}
  {
    if d in {300, 600, 900} {
      assert TimerOptions[(d - 300) / 300].value == d;
    }
  }

  /** `options.find((opt) => opt.value === d)?.label`: the label of the
      first option carrying that value, or nothing when none does. The
      field is called `caption` here because `label` is a Dafny keyword. */
  function FindLabel(options: seq<TimerOption>, d: int): (r: Option<string>)
    ensures r.None? <==> forall i :: 0 <= i < |options| ==> options[i].value != d
    ensures r.Some? ==> exists i :: (0 <= i < |options| && options[i].value == d && options[i].caption == r.value
                                     && forall j :: 0 <= j < i ==> options[j].value != d)
  {
    if options == [] then None
    else if options[0].value == d then Some(options[0].caption)
    else
      var r := FindLabel(options[1..], d);
      assert r.Some? ==> exists i :: (1 <= i < |options| && options[i].value == d && options[i].caption == r.value
                                      && forall j :: 0 <= j < i ==> options[j].value != d)
      by {
        if r.Some? {
          var k :| (0 <= k < |options[1..]| && options[1..][k].value == d && options[1..][k].caption == r.value
                    && forall j :: 0 <= j < k ==> options[1..][j].value != d);
          assert forall j :: 1 <= j < k + 1 ==> options[j].value != d by {
            forall j | 1 <= j < k + 1 ensures options[j].value != d {
              assert options[j] == options[1..][j - 1];
            }
          }
        }
      }
      r
  }

  class NewChatModal {
    var customUrl: string
    var selectedDuration: int

    /** The selected duration is always one of the offered options. */
    ghost predicate Valid()
      reads this
    {
      IsOption(selectedDuration)
    }

    constructor ()
      ensures Valid()
      ensures customUrl == "" && selectedDuration == DefaultDuration
    {
      customUrl := "";
      selectedDuration := DefaultDuration;
      assert TimerOptions[1].value == DefaultDuration;
    }

    /** Clicking the button of option `i`. */
    method SelectDuration(i: nat)
      requires i < |TimerOptions|
      modifies this
      ensures Valid()
      ensures selectedDuration == TimerOptions[i].value
      ensures customUrl == old(customUrl)
    {
      selectedDuration := TimerOptions[i].value;
    }

    /** The URL input's `onChange`. */
    method EditCustomUrl(value: string)
      requires Valid()
      modifies this
      ensures Valid()
      ensures customUrl == value
      ensures selectedDuration == old(selectedDuration)
    {
      customUrl := value;
    }

    /** `disabled={!customUrl.trim()}` of the "Load Blog" button. */
    function LoadDisabled(): (r: bool)
      reads this
      ensures r <==> AllWhitespace(customUrl)
    {
      Blank(customUrl)
    }

    /** The label under the options ("Selected: ..."), always found. */
    function SelectedLabel(): (r: Option<string>)
      reads this
      requires Valid()
      ensures r.Some?
      ensures exists i :: (0 <= i < |TimerOptions| && TimerOptions[i].value == selectedDuration
                           && TimerOptions[i].caption == r.value)
    {
      FindLabel(TimerOptions, selectedDuration)
    }

    /** `handleLoadCustom`: a URL that is blank after trimming does nothing;
        otherwise the untrimmed URL is passed on with the current duration,
        the field is cleared and the form closes. The guard refuses exactly
        when the button is disabled. */
    method LoadCustom() returns (load: Option<BlogChoice>, closed: bool)
      requires Valid()
      modifies this
      ensures Valid()
      ensures load.Some? <==> !old(LoadDisabled())
      ensures load.Some? ==> load.value == BlogChoice(CustomBlogTitle, old(customUrl), old(selectedDuration))
      ensures closed <==> load.Some?
      ensures customUrl == (if load.Some? then "" else old(customUrl))
      ensures selectedDuration == old(selectedDuration)
    {
      if !Blank(customUrl) {
        load := Some(BlogChoice(CustomBlogTitle, customUrl, selectedDuration));
        customUrl := "";
        closed := true;
      } else {
        load := None;
        closed := false;
      }
    }

    /** `handleLoadPreselected`: the article's own title and URL with the
        current duration, then close; the form's state is untouched. */
    method LoadPreselected(article: Article) returns (load: BlogChoice, closed: bool)
      ensures load.title == article.title && load.url == article.url
      ensures load.duration == selectedDuration
      ensures closed
    {
      load := BlogChoice(article.title, article.url, selectedDuration);
      closed := true;
    }
  }
}

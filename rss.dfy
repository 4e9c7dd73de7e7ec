/**
 * The RSS source: its configuration, and the pure mapping from the records
 * of an already-parsed RSS 2.0 channel to feed items.
 *
 * The RFC 2822 date parser (section 3.3 of RFC 2822, followed by conversion
 * to UTC) is a parameter `parseDate`: it yields `None` for text it rejects.
 */
module Rss {
  import opened Wrappers
  import opened FeedItems

  /** One `<item>` of a channel, with the elements the reader looks at. */
  datatype ChannelItem = ChannelItem(
    guid: Option<string>,
    link: Option<string>,
    title: Option<string>,
    description: Option<string>,
    pubDate: Option<string>)

  /** An RSS feed to poll: its URL and the label shown beside its items. */
  datatype RssSource = RssSource(url: string, sourceLabel: string) {
    /** `DataSource::name`. */
    function Name(): (r: string)
      ensures r == sourceLabel
    {
      sourceLabel
    }
  }

  /** `RssSource::new`. */
  function NewSource(url: string, sourceLabel: string): (r: RssSource)
    ensures r.url == url && r.sourceLabel == sourceLabel
  {
    RssSource(url, sourceLabel)
  }

  lemma NameOfNewSource(url: string, sourceLabel: string)
    ensures NewSource(url, sourceLabel).Name() == sourceLabel
  {
  }

  const Untitled: string := "(untitled)"

  /** The closure body of `parse_channel`: one channel record to one feed item. */
  function ParseItem(item: ChannelItem, sourceLabel: string, parseDate: string -> Option<int>): (r: FeedItem)
    // id: the guid, else the link, else the empty string
    ensures item.guid.Some? ==> r.id == item.guid.value
    ensures item.guid.None? && item.link.Some? ==> r.id == item.link.value
    ensures item.guid.None? && item.link.None? ==> r.id == ""
    // title: the title, else the placeholder
    ensures item.title.Some? ==> r.title == item.title.value
    ensures item.title.None? ==> r.title == Untitled
    // description and link are copied as they are
    ensures r.description == item.description && r.link == item.link
    // published: absent when the date is missing or rejected by the parser
    ensures r.published.None? <==> item.pubDate.None? || parseDate(item.pubDate.value).None?
    ensures r.published.Some? ==> r.published == parseDate(item.pubDate.value)
    ensures r.sourceName == sourceLabel
  {
    var id := item.guid.OrElse(item.link).UnwrapOr("");
    var published := item.pubDate.AndThen(parseDate);
    FeedItem(
      id,
      item.title.UnwrapOr(Untitled),
      item.description,
      item.link,
      published,
      sourceLabel)
  }

  /** `RssSource::parse_channel`: each record mapped in turn, collected in order. */
  function ParseChannel(channel: seq<ChannelItem>, sourceLabel: string, parseDate: string -> Option<int>): (r: seq<FeedItem>)
    ensures |r| == |channel|
    ensures forall i :: 0 <= i < |r| ==> r[i] == ParseItem(channel[i], sourceLabel, parseDate)
  {
    seq(|channel|, i requires 0 <= i < |channel| => ParseItem(channel[i], sourceLabel, parseDate))
  }

  /** Every item produced carries the source's label. */
  lemma ParseChannelLabels(channel: seq<ChannelItem>, sourceLabel: string, parseDate: string -> Option<int>)
    ensures forall x | x in ParseChannel(channel, sourceLabel, parseDate) :: x.sourceName == sourceLabel
  {
  }

  /**
   * A bad date degrades only its own item: changing one record of the channel
   * changes no other item of the result.
   */
  lemma ParseChannelItemwise(channel: seq<ChannelItem>, k: nat, other: ChannelItem, sourceLabel: string,
                             parseDate: string -> Option<int>)
    requires k < |channel|
    ensures var before := ParseChannel(channel, sourceLabel, parseDate);
            var after := ParseChannel(channel[k := other], sourceLabel, parseDate);
            |after| == |before| &&
            after[k] == ParseItem(other, sourceLabel, parseDate) &&
            forall i :: 0 <= i < |before| && i != k ==> after[i] == before[i]
  {
  }

  /** Parsing commutes with splitting the channel: the mapping is applied record by record. */
  lemma ParseChannelAppend(a: seq<ChannelItem>, b: seq<ChannelItem>, sourceLabel: string, parseDate: string -> Option<int>)
    ensures ParseChannel(a + b, sourceLabel, parseDate) == ParseChannel(a, sourceLabel, parseDate) + ParseChannel(b, sourceLabel, parseDate)
  {
    var l, r, ra, rb := a + b, ParseChannel(a + b, sourceLabel, parseDate), ParseChannel(a, sourceLabel, parseDate), ParseChannel(b, sourceLabel, parseDate);
    assert forall i | 0 <= i < |r| :: r[i] == (ra + rb)[i] by {
      forall i | 0 <= i < |r| ensures r[i] == (ra + rb)[i] {
        if i < |a| { assert l[i] == a[i]; } else { assert l[i] == b[i - |a|]; }
      }
    }
  }
}
